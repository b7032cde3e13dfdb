# Verified model of the inference control plane

A Dafny model of the queue-based inference control plane, with proofs of what its state machines
and algorithms keep over every run. `dafny verify dfyconfig.toml` checks the whole project.

The source files are modelled in three layers, one module per file or component.

**Algorithms.** `Batching` (grouping and greedy splitting; `BatchingProofs` and `BatchingOrder` have the
results), `PriorityQueue` (three lanes), `Latency`
(bounded windows and a percentile test), `Labels` (the label printer of the metrics endpoint and its
histogram), `Router` (with `RouterChoices`: which model every request gets), `Scheduler` (GPU placement), `Adapter` (restoring input order), `Admission`.
Code that loops or updates fields is a class or a method, proved equal to a function of its input or
of the old state; the properties are then lemmas about that function.

**Timed state machines.** `Breaker`, `Tenant` (with `TenantPolicies`: policies that change between
calls), `Autoscaler`, `Reconciliation`. Time is a real number handed to each call. The results range
over every sequence of calls.

**The request lifecycle.** Two closed systems, both with workers that can be interrupted anywhere.
`Demo` is the gateway, the priority queue, the tenant slots and one worker, all in process; its
results are in `DemoProofs`, `DemoConservation` and `DemoProgress`; `DemoRecords` says what its records tell
of what happened, `DemoStories` in which order it happens and what the breaker and the latency tracker learn
of it; `GatewaySlots` adds a queue that may fail. `Fleets` is any number of queue workers over one
queue and one result store: messages are delivered again and again, to whichever worker is idle, also
while another worker still holds them, and a worker may crash or restart between any two operations.
`Worker`, `Executions` and `WorkerProofs` describe one such worker and what it sees of the platform;
`FleetProofs` has the results over runs, `FleetOverwrites`, `FleetSpoils` and `FleetProbes` say exactly
when completion is not final and when a breaker gets stuck, and `FleetReach` gives runs in which that
happens. `FleetRecords` and `FleetStories` are for the fleet what `DemoRecords` and `DemoStories` are for the
in-process platform.

In both systems, what a worker still has to do for its messages is a list of operations, the program;
a worker step executes the head of the list. The classes `DemoWorkers.DemoWorker`,
`RagWorkers.RAGWorker` and `Gateways.Gateway` are the imperative form: their methods are proved to do
exactly what the program or the submission step does. `DemoProgress.ExecutionIsARun`,
`DemoProgress.PollIsARun` and `Fleets.ExecutionIsARun` say that polling and executing a program are
runs of the systems, so the results over runs apply to the classes.

Shared helpers are in `Options`, `Results` (the result store) and `Sorting` (Python's stable sort).
Every induction is written out: where Dafny would look for one by itself, the lemma says
`{:induction false}`.

## What is proved false, and exactly when

- Completion is final in every run whose deliveries are exclusive (no message goes to a worker while
  another still holds it) and in which no worker stops between a COMPLETED write and the deletion of
  its message (`FleetProofs.CompletionIsFinal`). In any state of any fleet, a COMPLETED record stands,
  short of another delivery, if and only if no worker has a write for its request ahead
  (`FleetOverwrites.CompletionStandsExactly`). So, at whatever operation a worker has come to:
  - If it stops between the write and the deletion, one more delivery overwrites the record if and only
    if the scheduler places the request (`FleetSpoils.InterruptionSpoils`).
  - If the message in its hands goes to an idle worker as well, then, once the request is COMPLETED, the
    new holder overwrites the record if and only if its scheduler placed the request, and the old one if
    and only if it had a write for it ahead (`FleetSpoils.OverlapSpoils`); both come about, without a
    crash, when the other has a completion ahead (`FleetSpoils.OverlapLosesCompletion`,
    `FleetSpoils.OverlapLosesToHolder`). An overlap with a worker whose scheduler defers the request, or
    that has only its deletion left, spoils nothing on that worker's side.

  Both situations are reached from the initial state (`FleetReach.InterruptionIsReachable`,
  `FleetReach.OverlapIsReachable`).
- The breaker of a queue worker does not always recover. A batch leaves it without probes if and
  only if the scheduler deferred it and it had none before, or the gate left it without and then
  refused the batch, or let it through and every request had expired (`FleetProbes.BatchExhausts`).
  In every run a worker that has probes to grant is, between batches, out of them if and only if its
  last one was dropped by such a batch or by a crash (`FleetProbes.StuckExactly`), and then it
  completes and deletes nothing until it restarts (`FleetProbes.StuckForever`). This is reached
  without a crash in every configuration that can place a request (`FleetReach.StuckIsReachable`),
  the production configuration among them (`FleetReach.ShippedPlacesAll`). The in-process worker
  answers every probe and, if it has any to grant, cannot get stuck
  (`DemoProofs.BreakerNeverSticks`).
- For distinct requests a worker reports success if and only if every message of the delivery is deleted
  (`RagWorkers.DeliverySucceedsExactly`). Of two messages for one request in a delivery, as republication
  produces them, only the later can be deleted, however the request fares
  (`RagWorkers.EarlierMessageStays`).
- A submission leaves the slots balanced if and only if the caller is not granted a slot, or publishing
  works and the slot is that of the tenant whom the payload names (`GatewaySlots.BalanceExactly`). Slots
  lost to a failing queue are never given back (`GatewaySlots.SlotsAreHeldOrLost`): once they are the
  tenant's whole allowance, nothing of it is ever accepted again (`GatewaySlots.StarvedForEver`), and
  every platform that accepts a tenant's requests can be brought there
  (`GatewaySlots.StarvationIsReachable`), the demo by ten failures (`GatewaySlots.DemoStarves`).
- On pressure, an autoscaler that finds more workers than its maximum says "scale up" and means fewer
  (`Autoscaler.DecisionExactly`).
- One stale PENDING request that the queue refuses blocks all healing: the pass changes no record and
  announces nothing, stale PROCESSING requests included (`Reconciliation.RefusalBlocksHealing`).
- A policy without single-item batches drops a candidate if and only if it is the last of a group whose
  last batch would hold it alone (`BatchingProofs.DroppedExactly`); a request on its own, for one
  (`BatchingProofs.LoneRequestIsDropped`).
- A tenant check fails with an index error if and only if the limit in force is not positive and the
  tenant was not admitted in the last 60 seconds (`TenantPolicies.OutcomeIsHistoryAlways`); under one
  fixed policy, if and only if the limit is not positive (`Tenant.EmptyWindowErrorExactly`).
- A worker re-routes a gateway's choice to another model in exactly one case, which needs a model
  whose name is empty (`Router.ReroutingChangesExactly`).
- Greedy splitting is minimal for all groups if and only if token counts cannot be negative or batches
  hold at most two requests (`BatchingProofs.GreedyIsMinimalExactly`). Routed requests have at least one
  token, so the workers always split optimally (`WorkerProofs.WorkerSplitsOptimally`).
- Printed labels parse back to the label map if and only if no name contains the two characters `="`
  (`Labels.FormatThenParse`). That condition is sufficient, not necessary, for different maps to print
  differently (`Labels.PrintsAlikeOnlyWhenEqual`); without it they may not (`Labels.MarkInNameForges`).

## Where code and documentation differ

The model follows the code.

- `src/ai_inference/gateway/api.py:103` describes priority 1 as the lowest; the lanes, the batcher and
  the router treat low numbers as urgent.
- The gateway never reports a queue depth to admission control, so `max_queue_depth` never bites
  (`DemoProofs.QueueDepthLimitIsInert`).
- `max_heal_retries` is never read: a stale pending request is republished by every healing pass
  (`Reconciliation.ResubmissionIsNeverExhausted`).
- A pass that fails a stale pending request for want of a queue notifies nobody
  (`Reconciliation.NotifiedExactly`).
- `get_batch` looks at its size limit only after the first item, so a limit below one yields one item.
- A batching policy that does not allow single-item batches drops candidates silently
  (`BatchingProofs.NothingDroppedExactly`).

## Model

| member | source | states |
|---|---|---|
| DemoConservation.Conservation | src/ai_inference/demo.py:62-243 | In every reachable state of the in-process platform every accepted request is in exactly one of queued and PENDING, in the worker's hands and not terminal unless its release is the next operation, COMPLETED or FAILED; no request is in flight twice, neither as the same payload nor as two payloads with one id; each tenant's active count equals its requests in flight and stays within its cap; pending records stay within the admission limit |
| DemoConservation.SettledOnce | src/ai_inference/demo.py:143-235 | In every run of the in-process platform a terminal record is written at most once for a request, and a request is COMPLETED or FAILED if and only if one was |
| DemoConservation.TerminalIsFinal | src/ai_inference/demo.py:143-235 | Whatever follows, a COMPLETED or FAILED record of the in-process platform never changes |
| DemoRecords.RecordsTell | src/ai_inference/demo.py:143-235 | In every run, a record is PENDING or PROCESSING until its request is answered or given up; COMPLETED if and only if it was answered with a text and no error, and then with that text; otherwise FAILED without a result, with the adapter's error, or with the reason for which its batch did not pass the gate; always with the submission's time and the gateway's model |
| DemoRecords.PayloadsCarrySubmissions | src/ai_inference/gateway/api.py:331-374 | In every run a request in flight carries, field by field, prompt, context, event type, priority, tenant and time of the submission that drew its id, and the model the gateway decided on; it waits in the lane for its priority (to 2, 3 to 7, from 8) |
| DemoRecords.SubmittedOnce | src/ai_inference/gateway/api.py:337 | In every run an id is drawn by one accepted submission only |
| DemoRecords.CandidateCarries | src/ai_inference/demo.py:118-139 | Routing in the worker gives the gateway's model, token estimate and batchability, and the candidate carries the submission's prompt and context |
| DemoRecords.InputsCarry | src/ai_inference/demo.py:193-194 | The adapter is asked with the prompt and the context that were submitted |
| DemoRecords.ExecutionTells | src/ai_inference/demo.py:143-235 | Executing a program leaves records that tell what happened in it |
| DemoRecords.BatchTells | src/ai_inference/demo.py:114-235 | Processing a batch of messages leaves records that tell what happened to them |
| DemoStories.BatchesInTurn | src/ai_inference/demo.py:141-235 | The planned batches meet the gate one after the other; in one that passes every request is marked, then every request answered, in the batch's order; in one that does not every request is given up; nothing else happens |
| DemoStories.ReportsExactly | src/ai_inference/demo.py:166-221 | In every run the breaker is in the state in which one request per batch with a device, one success per answer with a text and no error, and one failure per other answer leave it; the latency windows hold the durations of the successes, under their models |
| DemoProofs.ReleasesNeverClamp | src/ai_inference/gateway/tenant.py:154-157 | In every run a slot is only released while the tenant holds one, after the request's record is terminal, so the clamp at zero never bites |
| DemoProofs.HeldRequestsSettle | src/ai_inference/demo.py:143-235 | Whatever the gateway does meanwhile, a bounded number of worker steps leaves every request of the program terminal and nowhere in flight |
| DemoProgress.PlatformDrains | src/ai_inference/demo.py:237-243 | With nothing more submitted, a number of worker steps bounded by the state empties queue and hands: every request ever accepted is COMPLETED or FAILED and no tenant holds a slot |
| DemoProofs.BatchSettlesItsMessages | src/ai_inference/demo.py:114-235 | Executing a batch's program to its end settles exactly its messages and keeps the books for all others |
| DemoProofs.BreakerNeverSticks | src/ai_inference/demo.py:166-221 | Between batches the in-process worker's breaker is out of probes half-open if and only if it has none at all to grant; otherwise it refuses exactly while the recovery timeout runs |
| DemoProofs.StepPreserves | src/ai_inference/demo.py:143-235 | Every operation of the worker keeps records, slots, the shape of the remaining work and the answered-probe invariant together |
| DemoProofs.SubmitPreserves | src/ai_inference/gateway/api.py:298-374 | A submission with a fresh id, admitted or not, keeps the whole platform invariant |
| DemoProofs.ProgramCoversMessages | src/ai_inference/demo.py:114-143 | The work planned for a batch of messages releases exactly those messages, each once |
| DemoProgress.ExecutionIsARun | src/ai_inference/demo.py:143-235 | Executing the worker's program on its own equals some number of worker steps appended to the run |
| DemoProgress.PollIsARun | src/ai_inference/demo.py:237-243 | From an idle worker, some number of worker steps probes the lanes, takes exactly the messages `get_batch` returns, leaves the rest of the drain order and begins on the program for them |
| DemoProofs.QueueDepthLimitIsInert | src/ai_inference/gateway/api.py:299-303 | A submission is rejected for queue depth if and only if admission is enabled and the depth limit is not positive |
| DemoProofs.DemoConfigurationIsCovered | src/ai_inference/demo.py:86-107 | The demo's own configuration satisfies every assumption of the results on runs |
| DemoWorkers.DemoWorker.PollOnce | src/ai_inference/demo.py:237-243 | One turn of the polling loop takes the first requests in drain order, leaves the rest in order, and processes the taken ones to their end |
| DemoWorkers.DemoWorker.ProcessBatch | src/ai_inference/demo.py:114-235 | Decoding, batching and all per-batch loops change store, slots, breaker and latency exactly as executing the program for the messages |
| DemoWorkers.DemoWorker.RunBatch | src/ai_inference/demo.py:143-190 | Scheduling, the breaker gate, failing or marking and inference of one batch are the execution of its gate |
| DemoWorkers.DemoWorker.FailBatch | src/ai_inference/demo.py:154-180 | A deferred or refused batch fails each request and releases its slot, in order |
| DemoWorkers.DemoWorker.MarkBatch | src/ai_inference/demo.py:184-191 | A scheduled batch is marked PROCESSING, request by request |
| DemoWorkers.DemoWorker.InferBatch | src/ai_inference/demo.py:193-235 | Each output is recorded under its own request and its slot released, in input order |
| DemoWorkers.DemoWorker.ReleaseTenant | src/ai_inference/demo.py:109-112 | Releases one slot of the tenant named in the payload, changing no other tenant |
| Gateways.Gateway.SubmitInference | src/ai_inference/gateway/api.py:290-374 | Authentication, admission, tenant check, routing, publishing and the PENDING record change store, slots and queue exactly as the submission step, with the same outcome, publish failures included |
| Gateways.PlainSubmission | src/ai_inference/gateway/api.py:290-374 | For an authenticated caller charged under the payload's own tenant, with a queue that takes the payload, the submission step is the one of the platform runs |
| Gateways.SubmissionExactly | src/ai_inference/gateway/api.py:290-374 | For every submission: who is charged, which of the outcomes it has (each if and only if), what it leaves in the tenant slots, and that an accepted one, and only that, is at the end of the lane for its priority with a PENDING record |
| GatewaySlots.BalanceExactly | src/ai_inference/gateway/api.py:290-367 | One slot per request in flight is kept by a submission if and only if the caller is not granted one (authenticated, admitted and let in by the tenant check), or publishing works and the charged tenant is the one the payload names |
| GatewaySlots.SlotsAreHeldOrLost | src/ai_inference/gateway/api.py:317-367 | In every run with a queue that may fail, a tenant's active count is its requests in flight plus the submissions of its own that got a slot and could not be queued, within its cap |
| GatewaySlots.StarvedForEver | src/ai_inference/gateway/api.py:317-367 | Once slots lost to failed publishes make up a tenant's cap, no continuation of the run accepts another request of it |
| GatewaySlots.IdleTenantIsRefusedExactly | src/ai_inference/gateway/tenant.py:97-152 | After any run, a tenant with nothing in flight and room in its window is refused if and only if the slots it lost reach its cap |
| GatewaySlots.StarvationIsReachable | src/ai_inference/gateway/api.py:357-367 | In every configuration that lets a tenant in, any number of its slots up to the cap can be lost, with nothing in flight |
| GatewaySlots.DemoStarves | src/ai_inference/demo.py:62-107 | Ten failed publishes leave the demo with nothing in flight and refusing every further request of the tenant |
| Gateways.RefusalsSayWhen | src/ai_inference/gateway/api.py:298-329 | An answer carries a Retry-After if and only if the caller is authenticated and refused by admission control (10, 5 or 15 seconds by the limit reached) or on a limit of its tenant (the time the tenant check gives); it is at least one second |
| Gateways.InProcessPublisher.Publish | src/ai_inference/demo.py:62-64 | The payload joins the end of the lane of its own priority |
| FleetProofs.DeletionFollowsSettling | src/ai_inference/core/worker.py:531-617 | In every run of every fleet, whatever is redelivered to whom and wherever workers stop, a message is deleted only after COMPLETED, or FAILED by expiry, was written for its request |
| FleetProofs.DeliveriesAreDeliverable | src/ai_inference/core/worker.py:649-670 | In every run, whatever can be delivered to a worker holds distinct messages for distinct requests |
| FleetRecords.RecordsTell | src/ai_inference/core/worker.py:508-647 | In every run of every fleet a record says what the last write for its request says: COMPLETED with the text, the model, the time of its task and the clock of the tick that answered it; FAILED by the breaker, the TTL or the adapter's error, "Inference failed" for an absent or empty one |
| FleetRecords.FactsHaveReasons | src/ai_inference/core/worker.py:466-647 | In every run, a request is refused only after its batch was placed and the breaker refused it, and marked and answered only after its batch passed and it was found young enough; every candidate carries its task and what routing decides on it |
| FleetRecords.PublishedOnce | src/ai_inference/core/worker.py:392-413 | In every run there is one task for a request |
| FleetRecords.InputsCarryTasks | src/ai_inference/core/worker.py:566-574 | The adapter is asked with the prompt and the context of its task |
| FleetStories.BatchesInTurn | src/ai_inference/core/worker.py:466-670 | The planned batches meet the gate one after the other: one without a device is left alone, in one that the breaker refuses every request is refused, in one that passes every request is checked, and those young enough are marked and then answered, by the last places of their ids, which is the batch's order if they are distinct |
| FleetStories.ReportsExactly | src/ai_inference/core/worker.py:476-625 | In every run the breaker and the latency windows of every worker are in the state in which what it reported since it last started leaves them |
| FleetProofs.RunIsSafe | src/ai_inference/core/worker.py:466-670 | In every run with exclusive deliveries, each request in a worker's hands has one undeleted message of its own, no two workers hold one request, and deleted messages belong to requests that are done |
| FleetProofs.DeletionIsSafe | src/ai_inference/core/worker.py:531-564 | With exclusive deliveries, a deleted message's record is COMPLETED or expired-FAILED, and no continuation of the run ever changes that record |
| FleetProofs.CompletionIsFinal | src/ai_inference/core/worker.py:595-617 | With exclusive deliveries and no stop between completion and deletion, a COMPLETED record is never overwritten and each request completes at most once, however often and to whichever workers messages are redelivered |
| FleetSpoils.InterruptionSpoils | src/ai_inference/core/worker.py:601-617 | Whenever a crash or restart separates a completion from its deletion, the message can be delivered again, exclusively, to that worker or any idle one, and the delivery overwrites the COMPLETED record if and only if the scheduler places the request |
| FleetOverwrites.OverwrittenExactly | src/ai_inference/core/worker.py:466-647 | At any point of a worker's program and for any tick, its own operations overwrite a COMPLETED record if and only if a write for the request lies ahead: a placed batch, the TTL check, a mark, a refusal, or an answer that fails |
| FleetOverwrites.CompletionStandsExactly | src/ai_inference/core/worker.py:466-647 | In any state of any fleet, a COMPLETED record stands, whatever happens short of another delivery, if and only if no worker has a write for its request ahead |
| FleetSpoils.OverlapSpoils | src/ai_inference/core/worker.py:466-647 | Whatever operation a holder has come to when its message goes to an idle worker as well, and whatever happens then: once the request is COMPLETED, the new holder overwrites the record if and only if its scheduler placed the request, and the old one if and only if it had a write for it ahead, as long as they have not moved |
| FleetSpoils.OverlapLosesCompletion | src/ai_inference/core/worker.py:595-617 | A holder with a completion ahead can complete the request and delete its message, after which the new holder overwrites the record |
| FleetSpoils.OverlapLosesToHolder | src/ai_inference/core/worker.py:531-590 | The new holder can complete the request, after which the old one, with a write ahead, overwrites the record |
| FleetSpoils.RedeliveryOverwrites | src/ai_inference/core/worker.py:531-590 | Any undeleted message of a completed request, also one that reconciliation published again, overwrites the COMPLETED record when an idle worker receives it if and only if the scheduler places the request |
| FleetReach.InterruptionIsReachable | src/ai_inference/core/worker.py:601-617 | In every valid configuration that places some request, a clean run leads to a worker about to delete the message of a completed request |
| FleetReach.OverlapIsReachable | src/ai_inference/core/worker.py:566-600 | With two workers, a clean run leads to one about to answer a request while the other is idle |
| FleetProbes.BatchExhausts | src/ai_inference/core/worker.py:466-647 | For every batch, breaker and course of the clock: the batch leaves the breaker out of probes if and only if it was deferred with the breaker so already, or the gate left it so and either refused the batch or every request had expired at its turn of the TTL check |
| FleetProbes.StuckExactly | src/ai_inference/core/worker.py:508-564 | In every run of every fleet, a worker between batches is out of probes if and only if, since its last start, its last probe was dropped by a batch expired altogether or by a crash; with no probes configured, if and only if it is half-open |
| FleetProbes.DroppedSticks | src/ai_inference/core/worker.py:531-564 | Once the last probe is dropped the worker is stuck until it restarts, whatever it is doing |
| FleetProbes.StuckForever | src/ai_inference/core/worker.py:508-528 | From a stuck breaker on, until it restarts, no event, delivery or passage of time makes the worker complete a request or delete a message |
| FleetReach.StuckIsReachable | src/ai_inference/core/worker.py:531-564 | In every valid configuration that places some request, a run without a crash gets a worker stuck |
| FleetReach.ShippedPlacesAll | src/ai_inference/core/config.py:45-76 | With the production settings every request is placed, so all of the above applies to them |
| Fleets.ExecutionIsARun | src/ai_inference/core/worker.py:466-670 | Executing a worker's program equals a number of that worker's steps in the fleet |
| WorkerProofs.WorkerSplitsOptimally | src/ai_inference/core/worker.py:392-413 | Routed candidates have positive token counts, so every group the worker batches is cut into the fewest possible batches |
| RagWorkers.RAGWorker.ProcessMessages | src/ai_inference/core/worker.py:649-670 | For every delivery, repeated requests included: skips bodies that do not parse and executes the program for the rest; true if and only if some body parsed and every operation went well; deletes only the last message for each request; for distinct requests, true if and only if every parsed message has been deleted |
| RagWorkers.DeliverySucceedsExactly | src/ai_inference/core/worker.py:466-670 | For distinct requests, executing the program of a delivery goes well if and only if every message that parses ends up deleted |
| RagWorkers.EarlierMessageStays | src/ai_inference/core/worker.py:649-670 | Of two messages for one request in a delivery, the earlier is never deleted |
| Executions.SucceedsExactly | src/ai_inference/core/worker.py:466-647 | From any point of a program, for distinct requests with messages of their own: all goes well if and only if all of their messages are deleted, and no other message is |
| RagWorkers.RAGWorker.ProcessBatch | src/ai_inference/core/worker.py:466-647 | For every completion order of the adapter, equals executing the batch's gate and all it expands to; true if and only if all of that went well |
| RagWorkers.RAGWorker.SweepBatch | src/ai_inference/core/worker.py:531-564 | The TTL check fails and deletes exactly the requests that have expired at their turn; the others stay live, in order |
| RagWorkers.RAGWorker.InferBatch | src/ai_inference/core/worker.py:566-647 | Each output updates breaker, store, window and queue for the first live request of its id, repeated ids where they occur last; true if and only if all outputs are successes |
| RagWorkers.RAGWorker.RefuseBatch | src/ai_inference/core/worker.py:508-529 | An open breaker fails every request of the batch and deletes nothing |
| Batching.DynamicBatcher.BuildBatches | src/ai_inference/inference/batching.py:89-114 | The loops over candidates and groups compute the planned sequence of batches |
| Batching.DynamicBatcher.Sift | src/ai_inference/inference/batching.py:98-108 | Separates the candidates that must be alone from the groups by compatibility key, groups in first-appearance order |
| Batching.DynamicBatcher.Split | src/ai_inference/inference/batching.py:116-136 | The loop with its running token count computes the greedy split |
| BatchingProofs.BatchesPartitionInput | src/ai_inference/inference/batching.py:89-136 | Batches together with the dropped candidates are the input as a bag; nothing is dropped when single-item batches are allowed |
| BatchingProofs.DroppedExactly | src/ai_inference/inference/batching.py:116-136 | Dropped are, without single-item batches, exactly the last candidates of the groups whose last batch would hold one candidate; at most one per group |
| BatchingProofs.NothingDroppedExactly | src/ai_inference/inference/batching.py:89-136 | Every candidate gets into a batch if and only if single-item batches are allowed or no group would end with a batch of one |
| BatchingProofs.LoneRequestIsDropped | src/ai_inference/inference/batching.py:89-136 | A request on its own gets no batch if and only if single-item batches are not allowed and it need not be alone |
| BatchingProofs.BatchesWellFormed | src/ai_inference/inference/batching.py:98-136 | Every batch is non-empty, of one compatibility key, within the size limit; two or more are within the token budget and none of them must be alone |
| BatchingProofs.BatchingIgnoresArrivalOrder | src/ai_inference/inference/batching.py:98-114 | For distinct request ids any permutation of the input gives the same batches |
| BatchingProofs.GroupsComeOutSorted | src/ai_inference/inference/batching.py:98-112 | Within a group the concatenated batches are sorted by (priority, request id) |
| BatchingOrder.PlanInOrder | src/ai_inference/inference/batching.py:89-149 | The plan for any candidates: first those that must be alone, one batch each, by (priority, request id) and for the reason that applies first; then the others group by group, by first appearance, each batch closed only when the next candidate had no room; `single_batchable_request` is exactly the last batch of a kind if it holds one candidate and single-item batches are allowed |
| BatchingProofs.GreedyIsOptimal | src/ai_inference/inference/batching.py:116-136 | The split is a cutting within both limits, and no cutting of the group in its order has fewer pieces |
| BatchingProofs.PlannedGroupsAreOptimal | src/ai_inference/inference/batching.py:98-136 | Every group that is split is split into as few batches as possible, without assuming each candidate fits the budget |
| BatchingProofs.GreedyStaysAhead | src/ai_inference/inference/batching.py:116-136 | The exchange argument: from any common position greedy never falls behind a rival cutting |
| BatchingProofs.GreedyIsMinimalExactly | src/ai_inference/inference/batching.py:116-136 | Greedy is minimal for all groups with token counts from some least value on if and only if that value is not negative or batches hold at most two requests |
| Sorting.SortStable | src/ai_inference/inference/batching.py:98 | The sort keeps the order of elements that compare equal, as Python promises for `sorted`; it is why the model's sort stands for the program's |
| Sorting.StrLeIsLexicographic | src/ai_inference/inference/batching.py:98 | Request ids compare as Python compares strings: a prefix first, else by the first character that differs |
| Breaker.CircuitBreaker.GetState | src/ai_inference/inference/circuit_breaker.py:78-85 | Reading the state moves an open circuit whose timeout has passed to half-open |
| Breaker.CircuitBreaker.AllowRequest | src/ai_inference/inference/circuit_breaker.py:87-101 | Admits when closed, refuses when open, and counts half-open probes |
| Breaker.CircuitBreaker.RecordSuccess | src/ai_inference/inference/circuit_breaker.py:103-107 | The whole new state after a success |
| Breaker.CircuitBreaker.RecordFailure | src/ai_inference/inference/circuit_breaker.py:109-117 | The whole new state after a failure |
| Breaker.CircuitBreaker.Reset | src/ai_inference/inference/circuit_breaker.py:119-121 | A reset closes the circuit and clears its counters, keeping the last failure time |
| Breaker.TrippingIsHistory | src/ai_inference/inference/circuit_breaker.py:103-131 | From a fresh breaker, open if and only if the history holds `failure_threshold` failures in a row; while closed the counter is the length of the trailing run of failures |
| Breaker.OpenRefusesUntilTimeout | src/ai_inference/inference/circuit_breaker.py:78-117 | After a failure that leaves the circuit open, no request passes until the recovery timeout, whatever successes and failures arrive |
| Breaker.OpenGateIsTimeout | src/ai_inference/inference/circuit_breaker.py:78-101 | After any history an open circuit lets a request through if and only if it has probes to grant and the timeout since the last recorded failure has passed |
| Breaker.ProbesAreBounded | src/ai_inference/inference/circuit_breaker.py:87-101 | Until an outcome or a reset, a circuit that is not closed grants at most its remaining probes |
| Breaker.ExhaustedIsPermanent | src/ai_inference/inference/circuit_breaker.py:78-101 | Time and polling never lead out of a half-open circuit without probes |
| Breaker.HalfOpenExits | src/ai_inference/inference/circuit_breaker.py:103-131 | Half-open ends if and only if an outcome is recorded or the circuit is reset, and opens again exactly on a failure |
| Breaker.CountersAreHistory | src/ai_inference/inference/circuit_breaker.py:78-131 | After any calls, resets included, the failure counter is the number of failures since the last success or reset, and the probe counter the number of grants since the circuit turned half-open |
| Breaker.MovesExactly | src/ai_inference/inference/circuit_breaker.py:78-131 | After any calls, what any next call does to the phase, and whether a request is let through, in terms of these counts and the time of the last failure |
| Tenant.TenantPolicyEngine.CheckTenant | src/ai_inference/gateway/tenant.py:97-152 | Prunes the window, refuses on rate, concurrency or priority in that order, and otherwise records the admission and takes a slot |
| Tenant.TenantPolicyEngine.ReleaseTenant | src/ai_inference/gateway/tenant.py:154-157 | Frees one slot of the tenant, never below zero |
| Tenant.TenantPolicyEngine.SetPolicy | src/ai_inference/gateway/tenant.py:91-92 | Replaces one tenant's policy and nothing else |
| TenantPolicies.PolicyIsLastSet | src/ai_inference/gateway/tenant.py:91-95 | Whatever is called in between, `get_policy` finds the policy last set for the tenant, or else the default |
| Tenant.WindowIsHistory | src/ai_inference/gateway/tenant.py:103-142 | With a clock that never goes back, the pruned list is the full admission history restricted to the last 60 seconds, and never longer than the limit |
| Tenant.OutcomeIsHistory | src/ai_inference/gateway/tenant.py:103-152 | After any run a check is refused on rate if and only if the last 60 seconds hold the limit's number of admissions, else on concurrency if and only if all slots are taken, else admitted |
| Tenant.SlidingWindowBound | src/ai_inference/gateway/tenant.py:97-152 | No window (t - 60, t], wherever it ends, holds more admissions than `max_requests_per_minute` |
| Tenant.RetryAfterSoundAndTight | src/ai_inference/gateway/tenant.py:103-123 | A rate refusal advertises 1 to 61 seconds; without admissions in between, checks are refused on rate exactly until the oldest admission expires, which the advertised time exceeds by at most one second |
| Tenant.EmptyWindowErrorExactly | src/ai_inference/gateway/tenant.py:105-109 | In any run under one fixed policy a check raises the index error if and only if the limit is not positive |
| TenantPolicies.WindowIsHistoryAlways | src/ai_inference/gateway/tenant.py:91-142 | Under policies that change between calls, the pruned list is still the admission history of the last 60 seconds; what an old policy admitted counts under the new one |
| TenantPolicies.OutcomeIsHistoryAlways | src/ai_inference/gateway/tenant.py:91-152 | The outcome of a check after any calls and policy changes, each with an if and only if: index error, rate refusal, concurrency refusal or admission, by the policy last set, the admissions of the last 60 seconds and the slots taken |
| TenantPolicies.SlotsAreHistory | src/ai_inference/gateway/tenant.py:141-157 | After any calls and policy changes the slots a tenant has taken are the greatest excess of its admissions over its releases since any moment |
| Tenant.TenantsAreIsolated | src/ai_inference/gateway/tenant.py:88-157 | A tenant's state after any interleaving is that of a run with its own calls alone |
| Tenant.OutcomesAreIsolated | src/ai_inference/gateway/tenant.py:88-157 | Runs that agree on a tenant's own calls give its next call the same outcome |
| PriorityQueue.PriorityInferenceQueue.Put | src/ai_inference/core/priority_queue.py:60-63 | Appends to the arrival list, in the lane of the priority |
| PriorityQueue.PriorityInferenceQueue.Get | src/ai_inference/core/priority_queue.py:65-87 | Returns nothing if and only if the queue is empty, otherwise the head of the stable sort by lane |
| PriorityQueue.PriorityInferenceQueue.GetBatch | src/ai_inference/core/priority_queue.py:89-101 | Returns exactly the first min(k, size) items of the stable sort by lane and leaves the rest of it |
| PriorityQueue.PriorityInferenceQueue.Qsize | src/ai_inference/core/priority_queue.py:103-105 | The three lane sizes add up to the length of the arrival list |
| PriorityQueue.DrainOrderIsLanes | src/ai_inference/core/priority_queue.py:53-58 | The stable sort of the arrivals by lane is the three lanes one after the other |
| PriorityQueue.ServedByPriority | src/ai_inference/core/priority_queue.py:30-63 | Of any puts, those with priority up to 2 are drained first, then 3 to 7, then 8 and above, each in order of arrival |
| PriorityQueue.FirstOut | src/ai_inference/core/priority_queue.py:65-75 | The first non-empty lane's head is the head of the drain order, and removing it removes exactly that |
| PriorityQueue.GetUnderPutsConserves | src/ai_inference/core/priority_queue.py:65-87 | With puts between the probes of one get, nothing is lost or duplicated and each lane stays first-in first-out |
| PriorityQueue.NothingOverlooked | src/ai_inference/core/priority_queue.py:65-87 | A get that gives up leaves only items that arrived after the last probe of their lane |
| PriorityQueue.ServedExactly | src/ai_inference/core/priority_queue.py:65-87 | With puts between the probes of one get: from which lane it takes, and that it takes nothing, each by what had come into the lanes by the probe of each |
| Latency.LatencyTracker.Record | src/ai_inference/inference/latency.py:50-52 | Pushes onto one model's bounded window and leaves the others |
| Latency.LatencyTracker.GetStats | src/ai_inference/inference/latency.py:62-73 | Statistics exist if and only if there are samples; they give the number of samples and the degraded verdict; p50 and p95 are over exactly the thresholds that all but half, all but 95 percent of the samples are over |
| Latency.WindowIsRecentPast | src/ai_inference/inference/latency.py:48-52 | After any run a model's window is its last `window_size` durations |
| Latency.DegradedIsCounting | src/ai_inference/inference/latency.py:54-60 | With n samples, degraded if and only if at least n - floor(95n/100) exceed the threshold and there are enough of them |
| Latency.DegradedIgnoresOrder | src/ai_inference/inference/latency.py:75-80 | The verdict is independent of sample order |
| Latency.PercentilesAscend | src/ai_inference/inference/latency.py:75-80 | A lower percentile never exceeds a higher one |
| Latency.PercentileIsRank | src/ai_inference/inference/latency.py:75-80 | Of n samples the percentile is over exactly those thresholds that at least n - floor(pct n / 100) samples are over |
| Labels.EscapingIsPerCharacter | src/ai_inference/core/metrics.py:100-106 | The three sequential replacements equal one substitution per character |
| Labels.FormatThenParse | src/ai_inference/core/metrics.py:113-122 | For all labels, parsing the printed text returns the merged label map if and only if no name contains the two characters `="` |
| Labels.PrintsAlikeOnlyWhenEqual | src/ai_inference/core/metrics.py:109-122 | Distinct label maps whose names do not contain `="` never print alike |
| Labels.EqualMappingsPrintAlike | src/ai_inference/core/metrics.py:109-122 | Equal label maps print alike, whatever order they were given in |
| Labels.PrintedByName | src/ai_inference/core/metrics.py:113-122 | Labels are printed in the order of their names, each name once |
| Labels.PrintIsOneLine | src/ai_inference/core/metrics.py:100-122 | Whatever the values, the text is one line |
| Labels.MarkInNameForges | src/ai_inference/core/metrics.py:113-122 | Two different label maps that print alike, one with `="` in a name |
| Labels.Histogram.Observe | src/ai_inference/core/metrics.py:133-139 | Every bucket counts the observations at or below its boundary, with their number and total |
| Labels.BucketCounts | src/ai_inference/core/metrics.py:133-139 | A bucket's count is the number of observations at or below its boundary |
| Labels.TotalsAdd | src/ai_inference/core/metrics.py:133-139 | The total of some observations is the same however they are split up |
| Labels.BucketsAreCumulative | src/ai_inference/core/metrics.py:125-139 | Counts never decrease from one boundary to the next and never exceed the total count |
| Results.InMemoryResultStore.Put | src/ai_inference/core/result_store.py:48-49 | Overwrites one record, keeping dict order |
| Results.GetIsLastWrite | src/ai_inference/core/result_store.py:48-52 | After any writes, `get` finds the record last written for the request, and nothing if there was none |
| Results.InMemoryResultStore.ScanByStatus | src/ai_inference/core/result_store.py:54-55 | The loop over the records computes the scan in dict order |
| Results.ScanFinds | src/ai_inference/core/result_store.py:54-55 | A scan lists exactly the records with the status, each once |
| Results.PutMovesOneRecord | src/ai_inference/core/result_store.py:48-55 | A write takes one record from its old status count to its new one and changes no other count |
| Router.CreateGivesValid | src/ai_inference/inference/router.py:91-100 | A router that could be constructed has distinct enabled models and a configured default |
| RouterChoices.ConstructionExactly | src/ai_inference/inference/router.py:91-100 | A router is made of the last enabled profile of every name, in the order in which the names first appear; it cannot be made if and only if no profile is enabled or none of the default's name is |
| RouterChoices.RoutingExactly | src/ai_inference/inference/router.py:106-201 | For every request: the token estimate, and the model with its reason. A configured model that was asked for is taken; one too long for some model gets the smallest that it fits, or the largest; a complex type or a priority up to 2 gets the largest; any other gets the smallest or, if that is degraded, the smallest other one that it fits and that is not |
| RouterChoices.ChoiceIsUnique | src/ai_inference/inference/router.py:106-201 | No other model, and no other reason, is due to a request |
| Router.RoutingFitsAndIsMinimal | src/ai_inference/inference/router.py:106-201 | The choice is configured; unless it was requested it fits whenever some model fits; on context overflow it is the least (context, priority) that fits |
| Router.ReroutingIsStable | src/ai_inference/inference/router.py:106-119 | Re-routing a choice with a name gives the same model, tokens and batchability whatever latency either side has seen |
| Router.ReroutingChangesExactly | src/ai_inference/inference/router.py:106-192 | Re-routing changes the model if and only if the chosen name is empty, it was the default choice, it is degraded and another model that fits is not |
| Router.EmptyNameIsRerouted | src/ai_inference/inference/router.py:110-119 | The case of a changed model does occur |
| Scheduler.GPUScheduler.Place | src/ai_inference/inference/gpu_scheduler.py:124-191 | The checks and the loop over the devices compute the placement decision |
| Scheduler.PlacementIsTightestFit | src/ai_inference/inference/gpu_scheduler.py:157-191 | Scheduled if and only if some healthy device meets both limits; the pick is the least by (free memory, utilization, id) |
| Scheduler.DecisionExactly | src/ai_inference/inference/gpu_scheduler.py:124-191 | The decision on every request: rejected if and only if the model is unknown; otherwise deferred for its size, for want of devices (to the CPU or not), or for want of capacity with the largest free memory of a healthy device; otherwise placed, with the device, its free memory and what is required |
| Scheduler.DeviceOrderIsIrrelevant | src/ai_inference/inference/gpu_scheduler.py:157-191 | Reordering devices with distinct ids changes nothing in the decision |
| Scheduler.MoreDevicesNeverHurt | src/ai_inference/inference/gpu_scheduler.py:157-191 | Adding devices never turns scheduled into deferred |
| Scheduler.BestFreeIsMax | src/ai_inference/inference/gpu_scheduler.py:169-172 | The free memory reported with a deferral is the maximum over the healthy devices |
| Autoscaler.Autoscaler.Evaluate | src/ai_inference/core/autoscaler.py:110-143 | The chain of triggers, the cooldown and the bounds compute the decision and the remembered scaling time |
| Autoscaler.DecisionExactly | src/ai_inference/core/autoscaler.py:110-188 | Each action of a single decision if and only if, for any number of workers, and the number wanted |
| Autoscaler.FleetStaysBounded | src/ai_inference/core/autoscaler.py:107-188 | Workers that start in [min, max] stay there, move by at most one per evaluation, and successive actions are at least the cooldown apart |
| Autoscaler.MovesExactly | src/ai_inference/core/autoscaler.py:110-188 | After any run the fleet grows if and only if the cooldown since the last action is over, a trigger fires and it is below the maximum; it shrinks if and only if rested, idle, no trigger fires and it is above the minimum; exactly those evaluations are recorded as actions |
| Autoscaler.ActionRateIsBounded | src/ai_inference/core/autoscaler.py:107-188 | An interval of length L holds at most floor(L / cooldown) + 1 actions |
| Reconciliation.ReconciliationEngine.RunOnce | src/ai_inference/core/reconciliation.py:234-347 | The events with their analyses, the store, the queue and the notices after a pass, up to the first publish that raises, which ends it; a dry run, or one without healing, changes neither store nor queue and sends nothing |
| Reconciliation.RefusalBlocksHealing | src/ai_inference/core/reconciliation.py:234-347 | A healing pass raises if and only if the queue refuses a stale PENDING request, and then it changes no record and announces nothing |
| Reconciliation.NotifiedExactly | src/ai_inference/core/reconciliation.py:281-334 | A request is announced, and then once, if and only if the pass heals with notifications, it is stale and PROCESSING, and the service takes the notice |
| Reconciliation.StaleRecordsAreExactlyOnce | src/ai_inference/core/reconciliation.py:194-232 | A pass visits every PENDING or PROCESSING record whose age exceeds the timeout of its status exactly once, nothing else, and never skips |
| Reconciliation.HealingPass | src/ai_inference/core/reconciliation.py:194-267 | After a healing pass a PROCESSING record older than the processing timeout, and without a publisher a PENDING one older than the pending timeout, is FAILED with its id, accept time and model, completed now, without a result and with an error; every other record is unchanged |
| Reconciliation.StalePendingPublishedOnce | src/ai_inference/core/reconciliation.py:236-248 | Each stale PENDING request is published exactly once in a pass to a queue that takes it, with its own id, time and model, and no other |
| Reconciliation.VisitsInOrder | src/ai_inference/core/reconciliation.py:194-232 | The PENDING records are visited first, then the PROCESSING ones, each in the order of the store |
| Reconciliation.EventsReport | src/ai_inference/core/reconciliation.py:205-347 | The report of a pass: for each record visited what is to be done with it, whether only reported, its analysis if it is given up by healing, and whether somebody was told |
| Reconciliation.NoticesCarry | src/ai_inference/core/reconciliation.py:269-290 | Only stale PROCESSING records are announced, with their analysis and the record as it was |
| Reconciliation.SecondPassFindsNothing | src/ai_inference/core/reconciliation.py:292-347 | Without a publisher a second pass at the same instant finds nothing |
| Reconciliation.ResubmissionIsNeverExhausted | src/ai_inference/core/reconciliation.py:236-248 | After any number of passes with a queue that takes it, a stale PENDING request is published once more |
| Admission.Check | src/ai_inference/gateway/admission.py:84-115 | Admits if and only if all three limits have room; disabled if and only if the policy is; otherwise the first limit reached, in the order depth, pending, processing |
| Admission.RetryAfter | src/ai_inference/gateway/admission.py:88-113 | 10, 5 and 15 seconds for the three rejections, and nothing otherwise |
| Adapter.InferBatch | src/ai_inference/inference/vllm_adapter.py:138-165 | Whatever order the calls finish in, the results are that order sorted by the last position of each id; they are the outcomes, in input order when the ids are distinct |
| Adapter.RestoresInputOrder | src/ai_inference/inference/vllm_adapter.py:163-164 | Sorting by the index map puts any completion order of distinct ids back into input order |
| Adapter.RestoresRankOrder | src/ai_inference/inference/vllm_adapter.py:163-164 | With repeated ids, sorting by the index map restores any order by last position from every completion order in which outputs for one id keep their turns |

## Left out

- DemoConservation.Conservation: submission is one step, although the code publishes before it writes PENDING; publish failures, tenants other than the payload's and healing passes are excluded, as the slot balance is not kept there (GatewaySlots.BalanceExactly); single-item batches (the default) are assumed, since a dropped message would keep its slot (BatchingProofs.NothingDroppedExactly).
- GatewaySlots.SlotsAreHeldOrLost: callers are charged under the payload's own tenant; with another, a release may take a slot of a third party.
- FleetProofs.CompletionIsFinal: excludes deliveries of a message that another worker still holds and stops between the COMPLETED write and the deletion, where it is false; a request is published once, since a message that reconciliation publishes again is one more delivery that FleetSpoils.RedeliveryOverwrites applies to.
- FleetProofs.DeletionIsSafe: excludes deliveries of a message that another worker still holds; over all runs FleetProofs.DeletionFollowsSettling holds.
- FleetProofs.RunIsSafe: every task has an id and a timestamp, published ids are fresh, and one receipt handle stands for a message across its deliveries; single-item batches are allowed (the default), since a policy without them leaves a dropped message on the queue; messages are never moved to a dead-letter queue.
- RagWorkers.RAGWorker.InferBatch: outputs for one and the same id are told apart by the order in which they complete.
- BatchingProofs.GreedyIsOptimal: needs token counts that are not negative or batches of at most two; the exact condition is BatchingProofs.GreedyIsMinimalExactly.
- Labels.PrintsAlikeOnlyWhenEqual: needs names without `="`; with others it can be false.
- Router.ReroutingIsStable: needs a model name that is not empty; the exact condition is Router.ReroutingChangesExactly.
- Reconciliation.StalePendingPublishedOnce: of what is published again the id, the time and the model; its other fields are constants. The texts of the reasons for which reconciliation fails a request are one constant.
- DemoRecords.RecordsTell: the gateway's model is named for one with a name (Router.ReroutingChangesExactly); the texts of the gate's reasons are constants.
- Tenant.WindowIsHistory: assumes a clock that does not go backwards and a fixed policy; TenantPolicies.WindowIsHistoryAlways drops the latter.
- Floating point: durations, times and utilizations are real numbers, without rounding.
- Timestamps are real numbers; parsing ISO text is modelled only in reconciliation, as success or failure. Records carry the clock of the step that writes them.
- Batch ids, creation times, request id generation and idempotency keys.
- Threads inside one method: calls are atomic, except the probes of the priority queue's `get`.
- The endless `run` loops and signal handling: a run is any sequence of submissions, deliveries, steps, crashes and restarts.
- Tenant slots of the queue worker, which releases the default tenant's.
- Metrics counters other than the histogram, audit and log records, health and the kill switch.
- How a caller is authenticated, what the failure analyzer says and whether the notification service takes a notice: their answers are parameters.
- DynamoDB, SQS, SNS, Bedrock, ECS and HTTP clients, configuration loading and the legacy single-message path.
