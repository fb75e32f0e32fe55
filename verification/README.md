# Verified model of the Modbus RTU store-and-forward engine

This project models the C++ header-only store-and-forward bridge in `include/modbus_rtu_bridge/` and
proves properties of it with Dafny 4.11. `dafny verify dfyconfig.toml` checks everything.

## What is modelled

A gateway keeps one flattened register image. Accepted upstream writes are *works*: an address range,
an immutable snapshot, a delivery mode and an identity in a session. A route table maps the flattened
addresses to endpoints; the planner splits a work into endpoint-local *fragments*; the bridge keeps a
FIFO of partly issued works, lets due polls in between by a fairness rule, keeps at most one action in
flight, and tracks in a ledger how each fragment ended.

| file | models |
|---|---|
| `Words.dfy` | fixed-width integers; every narrowing cast is an explicit `Wrap16`, `Wrap32` or `WrapI16` |
| `IngressWork.dfy` | identities, sessions, deliveries, works, wrap-safe serial order |
| `RouteTable.dfy`, `RouteSplit.dfy` | validation, the signed binary search with any number of routes, preflight, segments; the split as a minimal tiling |
| `DownstreamExecutor.dfy` | downstream requests and their validation |
| `ForwardPlan.dfy`, `ForwardMeaning.dfy` | preflight and fragment cursor; what a plan covers and what it does to endpoints |
| `PlanOptions.dfy` | which options, ranges and payload govern which plan |
| `FixedStorage.dfy` | the ring buffer over an array |
| `CacheImage.dfy` | visible and applied image over arrays |
| `CompletionTransition.dfy`, `CompletionLedger.dfy` | the per-work aggregate and its notices; the ledger over an array of slots |
| `PollPlanner.dfy` | poll scan, handler pass, selection, commit, bounded waiting, the index-only scan |
| `StoreForwardState.dfy` | the bridge as a state machine on values, with its invariant |
| `StoreForwardBridge.dfy` | the bridge object, each method refining one transition |
| `StoreForwardRuns.dfy`, `StoreForwardTheorems.dfy` | whole runs with what a caller observes of them, and their theorems |
| `StoreForwardAdmission.dfy`, `StoreForwardRetirement.dfy` | when a work is admitted, and how it can be taken out again, over every run |
| `StoreForwardAnswers.dfy` | what previews, presented actions and completions are answered; one action at a time |
| `StoreForwardFairness.dfy` | the fairness state as a record of what was accepted |
| `StoreForwardFreshness.dfy` | how long a previewed action stays admissible |
| `StoreForwardSequences.dfy` | the request sequences of dispatched actions |
| `StoreForwardService.dfy` | which preview an invalid poll refuses; bounded waiting for accepted actions |
| `ImageCoherence.dfy` | which works an image can record; when a write keeps image and endpoints in agreement |
| `ImageDrift.dfy` | runs in which they drift apart; which configurations have one |
| `StoreForwardReplay.dfy` | the object under an arbitrary sequence of calls, with what those calls return |
| `BoundedDrain.dfy`, `DrainingRuns.dfy` | draining the queue without new admissions; the drain as a run |

### How it is stated

* Objects that the source updates in place are classes (`FixedRingQueue`, `Ledger`, `Bridge`,
  `PollIndexScan`, the image views); loops of the source are loops. Their methods are proved against
  functions on values, and the theorems are about those functions. Structures that the source passes
  by reference (`ForwardCursor`, `RouteCursor`, `PollScanCursor`, `CompletionAggregate`) are values
  that a method takes and returns.
* The coil and the holding-register templates are one model: a payload element is a `Value`, and
  `ValueKind` says which table a work belongs to.
* A borrowed pointer is a `Buffer`: an address together with the values readable from there. Pointer
  comparisons of the source compare both; the two agree because a borrowed payload stays immutable.
  A null storage pointer is a `present` flag.
* Enumerations that the source guards against unknown values have an `Unknown…` constructor.
* Branches that the source keeps as a defence are kept in the method bodies and ended by
  `assert false`: the proof shows that they cannot be reached. This covers `PlanningFailed`,
  `FairnessRejected`, both ledger rejections after a work's admission, and a failed push after a
  ledger reservation.
* Standing assumption of everything that is built on lookups (`Usable`): the table validates and has at
  most 32767 routes. The second half is this model's assumption; the library neither checks nor
  documents it. `Locate` itself is modelled without it, and the first finding says what happens beyond.
  Likewise the bridge is built over an empty ledger that nothing else uses meanwhile; its constructor
  does not check that.
* A run is any sequence of calls with arbitrary arguments, including refused ones. Sessions, times,
  poll candidates and outcomes are inputs of each call.

### Findings

* `validate` accepts up to 65535 routes, but `locate` keeps its bounds in signed 16-bit integers. With
  more than 32768 routes its upper bound starts negative and it finds nothing; with exactly 32768 it
  finds every route, but an address at or after the end of the last range makes the lower bound wrap
  and reads outside the table. `LookupsExact` gives the exact condition under which every lookup is
  right, `LongTablesFail` concrete tables for each failing count.
* The image length is a 16-bit count, so no image covers register address 65535 although a route may.
  Some image can record a Ready work if and only if the work does not reach that address
  (`RecordableExactly`); `LastRegisterIsNeverRecorded` is a work that does.
* Applied image and endpoints can drift apart in two ways. When the end of an image cuts through a
  route, a request across that end changes the endpoint but no part of it is recorded; recording it
  returns false, which the library's documentation calls a configuration fault. And when two upstream
  addresses share one downstream register, which `validate` accepts, a write through one of them leaves
  the image wrong at the other, with nothing reported; `SharedRegisterDrifts` is the smallest such
  table. `AgreementExact` gives the exact condition on a configuration: no work can be admitted, or for
  each kind of write that is sent, neither happens inside its image.
* A due candidate whose request is invalid blocks the engine once the burst limit is used up: for as
  long as it is that candidate's turn, no preview is ready, forward writes included
  (`PreviewStatusExact`, `InvalidPollBlocks`).
* With a burst limit of zero, polls that stay due starve the queue: it drains in bounded time if and
  only if the limit is at least one (`DrainsExactly`).
* Token order is exact for up to 32766 issues. At 32767 it is lost exactly when the reserved zero lies
  between the two tokens (`FirstLostDistance`).
* Acceptance of an action is equivalent to a preview of the same state returning it; nothing else
  about its origin is checked (`AdmissionExact`). It stays acceptable exactly until the next call that
  changes the engine (`ProposalGoesStale`).

## Model

| member | source | states |
|---|---|---|
| IngressWork.TokenOrderExact | include/modbus_rtu_bridge/IngressWork.h:92-112 | for every token and every distance up to a whole cycle, when the 16-bit comparison says before, after or neither, in terms of the true number of issues |
| IngressWork.IssueOrderIsTokenOrder | include/modbus_rtu_bridge/IngressWork.h:135-140 | works of one session whose tokens are 1 to 32766 issues apart always compare in issue order and never in reverse |
| IngressWork.FirstLostDistance | include/modbus_rtu_bridge/IngressWork.h:97-112 | 32767 issues apart, the order is lost if and only if zero was skipped in between |
| IngressWork.CurrentExactly | include/modbus_rtu_bridge/IngressWork.h:178-187 | a work is current in exactly one session state: active, ready, with its own non-zero generation announced and applied |
| RouteTable.Validate | include/modbus_rtu_bridge/RouteTable.h:126-177 | Valid exactly when storage is present, counts match, ends are in range and every range, empty or not, ends before every later start; otherwise the status is the defect of the first bad route of the first bad table |
| RouteTable.ValidateTable | include/modbus_rtu_bridge/RouteTable.h:138-174 | one pass that remembers one start and one non-empty end decides the order of all pairs |
| RouteTable.Locate | include/modbus_rtu_bridge/RouteTable.h:183-219 | on every validated table of any size: the route of the address if and only if there is one, with empty ranges present; nothing at all beyond 32768 routes; a read outside the table for an address after the last of exactly 32768 |
| RouteTable.LookupsExact | include/modbus_rtu_bridge/RouteTable.h:194-198 | every lookup is right if and only if there are at most 32767 routes, or 32768 whose last ends with the address space, or more that map nothing |
| RouteTable.LongTablesFail | include/modbus_rtu_bridge/RouteTable.h:194-199 | for every count from 32769 to 65535, a table that validates, routes the address, and on which the lookup misses it; for 32768, one on which the lookup finds every routed address and reads outside the storage for every other one |
| RouteTable.InspectSpan | include/modbus_rtu_bridge/RouteTable.h:221-251 | Complete exactly for a non-empty request within the address space all of whose addresses are routed; the other statuses tell which of these fails first |
| RouteTable.BeginSpan | include/modbus_rtu_bridge/RouteTable.h:253-267 | a cursor over the whole span exactly when the preflight is complete |
| RouteTable.Next | include/modbus_rtu_bridge/RouteTable.h:269-306 | one translated segment of one route, and where iteration goes on |
| RouteSplit.SegmentsArePieces | include/modbus_rtu_bridge/RouteTable.h:269-306 | iterating segments over a complete span gives exactly the route split, translated, with running source offsets |
| RouteSplit.PiecesTile | include/modbus_rtu_bridge/ForwardPlan.h:366-386 | the split tiles the span and every piece fits one request to one route |
| RouteSplit.TilesDisjoint | include/modbus_rtu_bridge/ForwardPlan.h:366-386 | a tiling has no overlap and does not leave the span |
| RouteSplit.TilesCover | include/modbus_rtu_bridge/ForwardPlan.h:366-386 | a tiling has no gap |
| RouteSplit.SplitIsMinimal | include/modbus_rtu_bridge/ForwardPlan.h:366-386 | no other legal way of cutting the span has fewer pieces |
| RouteSplit.PieceCount | include/modbus_rtu_bridge/ForwardPlan.h:366-386 | the number of pieces is the sum over crossed routes of their overlap divided by the limit, rounded up |
| ForwardPlan.Begin | include/modbus_rtu_bridge/ForwardPlan.h:263-327 | which refusal takes precedence; a single-endpoint policy refuses exactly the fully routed spans that no one route contains; a refused work leaves an idle cursor |
| ForwardPlan.BeginInSession | include/modbus_rtu_bridge/ForwardPlan.h:328-340 | a work that is not current is refused before anything else |
| ForwardMeaning.PopulatedMeans | include/modbus_rtu_bridge/ForwardPlan.h:199-235 | whatever the request held before, once populated it is a valid wire request that stores exactly the first `quantity` values of its slice, by the single or the multiple operation of its table |
| ForwardPlan.Next | include/modbus_rtu_bridge/ForwardPlan.h:341-412 | the next fragment field by field and the next position, or which of the three refusals |
| PlanOptions.RefusedExactly | include/modbus_rtu_bridge/ForwardPlan.h:263-293 | each refusal before the span policy is reached exactly by the works that meet all earlier demands and not that one |
| PlanOptions.PolicyDecides | include/modbus_rtu_bridge/ForwardPlan.h:295-317 | the ordered option governs tracked and silent works and the latest-state option the others: PreflightAndSplit makes every otherwise presentable work Ready, SingleEndpoint exactly those that one route contains |
| PlanOptions.SingleEndpointPlan | include/modbus_rtu_bridge/ForwardPlan.h:295-311 | under SingleEndpoint all fragments of a Ready plan have one route and one endpoint |
| PlanOptions.PlanTakes | include/modbus_rtu_bridge/ForwardPlan.h:199-235 | every fragment of a plan stays within its own kind's ranges and limit, names its own table and operation, and carries its own slice of the snapshot |
| ForwardPlan.OnPlanStep | include/modbus_rtu_bridge/ForwardPlan.h:341-412 | on a plan an unnumbered request of an identified work is refused, every other position has a fragment, the topology never appears to change, and addresses, offsets and indices never wrap before the plan ends |
| ForwardMeaning.PlanTilesWork | include/modbus_rtu_bridge/ForwardPlan.h:341-412 | the fragments of a Ready plan carry, in order and numbered from zero with only the last marked final, pieces that tile the work's span; there are exactly as many as the crossed routes need |
| ForwardMeaning.PlanIsMinimal | include/modbus_rtu_bridge/ForwardPlan.h:341-412 | a Ready plan is as short as any legal split of the work |
| ForwardMeaning.FragmentMeans | include/modbus_rtu_bridge/StoreForwardBridge.h:19-39 | the wire request of a fragment is valid and writes exactly its own addresses through their translations |
| ForwardMeaning.SplittingPreservesMeaning | include/modbus_rtu_bridge/ForwardPlan.h:263-412 | executing a Ready plan leaves all endpoints as writing each upstream address through its translation in ascending order, for every limit and even if downstream ranges alias |
| FixedStorage.FixedRingQueue.PhysicalIndex | include/modbus_rtu_bridge/FixedStorage.h:109-116 | one subtraction is a whole reduction modulo the capacity |
| FixedStorage.FixedRingQueue.PhysicalIndexInjective | include/modbus_rtu_bridge/FixedStorage.h:43-50 | different logical positions never share a slot |
| FixedStorage.FixedRingQueue.TryPush | include/modbus_rtu_bridge/FixedStorage.h:40-50 | appends to the abstract FIFO, or refuses and changes nothing when full |
| FixedStorage.FixedRingQueue.PopFront | include/modbus_rtu_bridge/FixedStorage.h:61-73 | removes the oldest record and keeps the order of the rest |
| FixedStorage.FixedRingQueue.TryPop | include/modbus_rtu_bridge/FixedStorage.h:52-59 | returns and removes the oldest record |
| FixedStorage.FixedRingQueue.At | include/modbus_rtu_bridge/FixedStorage.h:83-93 | the record at a logical position, and nothing beyond the size |
| CacheImage.MutableImageView.CopyFrom | include/modbus_rtu_bridge/CacheImage.h:27-42 | overwrites exactly the range, or nothing at all when it does not fit |
| CacheImage.DesiredAppliedCache.Restore | include/modbus_rtu_bridge/CacheImage.h:104-109 | puts exactly one range of the visible image back to the applied one |
| CacheImage.RestoreUndoesCapture | include/modbus_rtu_bridge/CacheImage.h:70-73 | restoring undoes a capture if and only if the two images agreed on the range before it |
| CompletionTransition.ResolveCompletion | include/modbus_rtu_bridge/CompletionTransition.h:165-266 | the first reason for a rejection, which changes nothing, or the unified effect of an accepted result |
| CompletionTransition.OneNoticePerLife | include/modbus_rtu_bridge/CompletionTransition.h:165-266 | under any sequence of attempts fragments are accepted in strict order up to one final one, and a tracked work gets one notice, success exactly when all through the final one applied |
| CompletionTransition.ApplyAppliedImageTransition | include/modbus_rtu_bridge/CompletionTransition.h:268-301 | only a current applied decision about this request changes the applied image, over exactly its range; the visible image never changes |
| CompletionTransition.LastAddressNeverFits | include/modbus_rtu_bridge/CacheImage.h:27-34 | a request fits some image if and only if it does not reach the last register address |
| CompletionLedger.WorstExtends | include/modbus_rtu_bridge/CompletionLedger.h:42-63 | combining outcomes keeps the severity maximum of the history, and a failure never reverts |
| CompletionLedger.ObservedExactly | include/modbus_rtu_bridge/CompletionLedger.h:28-63 | the observed outcome names a failure after sending if any fragment ended so, else an uncertain send, else a definite non-send, and success exactly when all applied |
| CompletionLedger.SummaryExactly | include/modbus_rtu_bridge/CompletionLedger.h:395-407 | the summary names the worst failure as soon as there is one, success exactly when every fragment through the final one applied, and nothing before |
| CompletionLedger.IssueAgrees | include/modbus_rtu_bridge/CompletionLedger.h:187-222 | recording a request keeps issue index, aggregate index, debt and closed flag in agreement |
| CompletionLedger.ResolveAgrees | include/modbus_rtu_bridge/CompletionLedger.h:238-278 | resolving keeps them in agreement and extends what the slot tells of its history |
| CompletionLedger.OutstandingVerdict | include/modbus_rtu_bridge/CompletionLedger.h:258-270 | the request in flight can be rejected only for a foreign identity or a stale session |
| CompletionLedger.SettledAsApplied | include/modbus_rtu_bridge/CompletionLedger.h:395-407 | settled as applied if and only if every fragment through the final one applied |
| CompletionLedger.SettledIffNoticed | include/modbus_rtu_bridge/CompletionLedger.h:395-407 | a tracked work is settled if and only if its notice was emitted |
| CompletionLedger.InsertRefines | include/modbus_rtu_bridge/CompletionLedger.h:165-185 | filling a free slot adds one work to the map that the slots stand for |
| CompletionLedger.RewriteRefines | include/modbus_rtu_bridge/CompletionLedger.h:189-236 | rewriting a work's slot changes that work only |
| CompletionLedger.RemoveRefines | include/modbus_rtu_bridge/CompletionLedger.h:409-412 | freeing a slot removes exactly its work and lowers the count by one |
| CompletionLedger.Ledger.Find | include/modbus_rtu_bridge/CompletionLedger.h:369-393 | the linear scan finds the one slot of a live identity |
| CompletionLedger.Ledger.Reserve | include/modbus_rtu_bridge/CompletionLedger.h:165-185 | every status, and a fresh slot for a new identity |
| CompletionLedger.Ledger.RecordIssued | include/modbus_rtu_bridge/CompletionLedger.h:187-222 | every status, and the new debt |
| CompletionLedger.Ledger.ClosePlanningAfterFailure | include/modbus_rtu_bridge/CompletionLedger.h:224-236 | closes exactly works with an observed failure |
| CompletionLedger.Ledger.Resolve | include/modbus_rtu_bridge/CompletionLedger.h:238-278 | resolved exactly when the issued request comes back with its identity, a known outcome and a current session; status, decision and summary otherwise |
| CompletionLedger.Ledger.Release | include/modbus_rtu_bridge/CompletionLedger.h:290-300 | releases exactly drained works |
| CompletionLedger.Ledger.AbandonGeneration | include/modbus_rtu_bridge/CompletionLedger.h:313-329 | removes exactly the works of one generation and counts them |
| CompletionLedger.Ledger.AbandonNotCurrent | include/modbus_rtu_bridge/CompletionLedger.h:331-344 | removes exactly the works that are not current and counts them |
| PollPlanner.DeadlineOrderExact | include/modbus_rtu_bridge/PollPlanner.h:17-22 | the modular comparison agrees with true time exactly within half the tick range |
| PollPlanner.ScanVisitsOnce | include/modbus_rtu_bridge/PollPlanner.h:152-187 | a scan visits every index exactly once |
| PollPlanner.NextIndex | include/modbus_rtu_bridge/PollPlanner.h:171-187 | the index under the cursor, and the cursor one place further round |
| PollPlanner.FirstDueIsFirst | include/modbus_rtu_bridge/PollPlanner.h:192-217 | the candidate found is due and none before it in scan order is |
| PollPlanner.NextDue | include/modbus_rtu_bridge/PollPlanner.h:192-217 | the first due candidate from wherever the scan stands, with the cursor left just behind it so that the next call goes on with the rest of the round |
| PollPlanner.OffersExact | include/modbus_rtu_bridge/PollPlanner.h:99-102 | scanning on after each offer offers every due candidate exactly once, and no other, in round-robin order |
| PollPlanner.HandlerPass | include/modbus_rtu_bridge/README.md:414-441 | candidates are offered in that order until one is polled or rejected by the queue; declining them all ends the scan; only a polled one changes the persistent state |
| PollPlanner.Select | include/modbus_rtu_bridge/PollPlanner.h:219-254 | a ready forward first unless a poll is due and the burst limit is used up |
| PollPlanner.Commit | include/modbus_rtu_bridge/PollPlanner.h:265-295 | the next fairness state, or a refusal that changes nothing |
| PollPlanner.ChoiceCommits | include/modbus_rtu_bridge/PollPlanner.h:219-295 | whatever is selected can be committed against the same candidate count |
| PollPlanner.PatienceDrops | include/modbus_rtu_bridge/PollPlanner.h:219-295 | every round that passes a due candidate over brings it strictly closer |
| PollPlanner.BoundedWaiting | include/modbus_rtu_bridge/PollPlanner.h:128-137 | a candidate that stays due is selected within count times (limit + 1) rounds, for every limit and starting state |
| PollPlanner.PollIndexScan.Next | include/modbus_rtu_bridge/PollPlanner.h:324-327 | the k-th call yields the k-th index of one round, then none |
| PollPlanner.PollIndexScan.CommitConsumed | include/modbus_rtu_bridge/PollPlanner.h:329-340 | publishes only for a valid index and an unchanged count |
| StoreForwardState.PackRoundTrip | include/modbus_rtu_bridge/StoreForwardBridge.h:53-169 | packing a work and its cursor into a queue slot loses nothing |
| StoreForwardState.AdmitWorkKeeps | include/modbus_rtu_bridge/StoreForwardBridge.h:345-420 | admitting a work keeps the engine's invariant |
| StoreForwardState.IssueKeepsEntry | include/modbus_rtu_bridge/StoreForwardBridge.h:495-527 | the ledger always records the previewed fragment of the front work, and queue and ledger agree again |
| StoreForwardState.PreviewIsSound | include/modbus_rtu_bridge/StoreForwardBridge.h:686-776 | a preview never fails in planning, and what it calls ready can be committed and is the front work's next fragment or a valid poll |
| StoreForwardState.AdmissionExact | include/modbus_rtu_bridge/StoreForwardBridge.h:447-482 | an action is accepted if and only if a preview of the present state returns exactly it |
| StoreForwardState.AdmitActionKeeps | include/modbus_rtu_bridge/StoreForwardBridge.h:447-553 | admitting an action keeps the invariant |
| StoreForwardState.ResolveKeepsEntry | include/modbus_rtu_bridge/StoreForwardBridge.h:611-628 | a work leaves exactly after a failure or its final fragment; otherwise queue and ledger agree again |
| StoreForwardState.CompleteKeeps | include/modbus_rtu_bridge/StoreForwardBridge.h:557-630 | completing keeps the invariant in every case |
| StoreForwardState.CompleteWriteShape | include/modbus_rtu_bridge/StoreForwardBridge.h:585-630 | the ledger resolves the write in flight or refuses it as stale, never otherwise; result and next state in each case |
| StoreForwardBridge.Bridge.AdmitWork | include/modbus_rtu_bridge/StoreForwardBridge.h:345-420 | every admission status; the push after a reservation cannot fail |
| StoreForwardBridge.Bridge.NextAction | include/modbus_rtu_bridge/StoreForwardBridge.h:421-441 | the preview, without any effect and never failing in planning |
| StoreForwardBridge.Bridge.PreviewAction | include/modbus_rtu_bridge/StoreForwardBridge.h:686-776 | which action comes next and the cursor after it |
| StoreForwardBridge.Bridge.AdmitAction | include/modbus_rtu_bridge/StoreForwardBridge.h:443-553 | accepted exactly for a current proposal, otherwise nothing changes; ledger and fairness cannot reject |
| StoreForwardBridge.Bridge.Complete | include/modbus_rtu_bridge/StoreForwardBridge.h:555-630 | result and state of a completion; a matching action with a known outcome always clears the action in flight |
| StoreForwardBridge.Bridge.DiscardOneStaleWork | include/modbus_rtu_bridge/StoreForwardBridge.h:632-651 | hands back exactly one idle stale front work |
| StoreForwardBridge.Bridge.AbandonFront | include/modbus_rtu_bridge/StoreForwardBridge.h:653-666 | hands back one idle front work of any session |
| StoreForwardBridge.Bridge.Reset | include/modbus_rtu_bridge/StoreForwardBridge.h:668-683 | empties queue and ledger together unless an action is in flight |
| StoreForwardReplay.Replay | include/modbus_rtu_bridge/StoreForwardBridge.h:312-818 | under any sequence of calls the object is in the state of the run of the same inputs, and the hand-backs and notices that the calls returned, in order, are those of the run |
| StoreForwardTheorems.ResolveLife | include/modbus_rtu_bridge/StoreForwardBridge.h:585-630 | when a fragment ends, the work goes on idle or ends completed, with exactly the notice owed by then |
| StoreForwardTheorems.StepKeeps | include/modbus_rtu_bridge/StoreForwardBridge.h:345-683 | every call with any arguments keeps state, lives, traces and images consistent |
| StoreForwardTheorems.ReachableStates | include/modbus_rtu_bridge/StoreForwardBridge.h:345-683 | in every reachable state queued works and ledger slots match one to one and agree on debt, indices and closure |
| StoreForwardTheorems.WritesFollowPlans | include/modbus_rtu_bridge/StoreForwardBridge.h:447-630 | admitted writes are, sequence numbers aside, a prefix of each work's plan, one work after the other in admission order; an all-applied completed work issued its whole plan |
| StoreForwardTheorems.AppliedImageExact | include/modbus_rtu_bridge/CompletionTransition.h:268-301 | the applied images are the initial ones overwritten in order by exactly the applied writes |
| StoreForwardTheorems.AppliedWorkIsWhole | include/modbus_rtu_bridge/CompletionTransition.h:268-301 | when a work retires on an applied fragment its whole range holds its whole snapshot |
| StoreForwardTheorems.AppliedWorkMeans | include/modbus_rtu_bridge/StoreForwardBridge.h:447-630 | an all-applied completed work has changed the endpoints as the address-by-address write would |
| StoreForwardTheorems.NoticesExact | include/modbus_rtu_bridge/CompletionTransition.h:165-266 | one notice for every completed tracked work, success exactly when every planned fragment applied; none for any other work |
| StoreForwardTheorems.AnnouncedInOrder | include/modbus_rtu_bridge/StoreForwardBridge.h:557-630 | the notices a caller receives over a run are those of the works, in admission order |
| StoreForwardTheorems.ReportedOutcome | include/modbus_rtu_bridge/StoreForwardBridge.h:590-628 | a write completion's summary says nothing while the work goes on; a retired work is reported as applied exactly if its whole plan applied, and as failed, uncertain or not sent exactly if a fragment of it ended so; the decision is about that fragment, records it exactly if it applied, and calls for the caller's policy otherwise |
| StoreForwardTheorems.OwnershipConserved | include/modbus_rtu_bridge/StoreForwardBridge.h:557-666 | without a reset, works are handed back once each in admission order with their own context, and the rest are the queue |
| StoreForwardTheorems.PreviewsOldestLive | include/modbus_rtu_bridge/StoreForwardBridge.h:686-776 | a previewed write is the next planned fragment of the oldest work not handed back |
| StoreForwardAdmission.AdmissionAnswers | include/modbus_rtu_bridge/StoreForwardBridge.h:345-420 | each admission status in terms of storage, the queue's length and identities, and the work's session and preflight |
| StoreForwardAdmission.AdmittedExactly | include/modbus_rtu_bridge/StoreForwardBridge.h:345-420 | over every run: a work is admitted, at the end, if and only if there is storage, the queue is shorter than both capacities, its identity is not queued, and it is current and Ready; otherwise nothing changes |
| StoreForwardAdmission.WholeCapacity | include/modbus_rtu_bridge/StoreForwardBridge.h:345-420 | up to the smaller capacity, any acceptable works with different identities are all admitted and wait in order |
| StoreForwardRetirement.DiscardedExactly | include/modbus_rtu_bridge/StoreForwardBridge.h:632-651 | over every run: a discard hands back the idle oldest work if its session is over, with identity, kind and context, and changes nothing at all otherwise |
| StoreForwardRetirement.AbandonedExactly | include/modbus_rtu_bridge/StoreForwardBridge.h:653-666 | over every run: an abandonment hands back the idle oldest work, and changes nothing otherwise |
| StoreForwardRetirement.ResetExactly | include/modbus_rtu_bridge/StoreForwardBridge.h:668-683 | over every run: a reset of an idle engine empties it and its fairness but not its request count, and of a busy one changes nothing |
| StoreForwardRetirement.DiscardsClearOut | include/modbus_rtu_bridge/README.md:566-573 | one discard per queued work clears out exactly the works before the first current one |
| StoreForwardRetirement.StaleWorkExactly | include/modbus_rtu_bridge/StoreForwardBridge.h:704-707 | a preview is refused as stale exactly while the idle oldest work is not of the session |
| StoreForwardAnswers.PresentedExactly | include/modbus_rtu_bridge/StoreForwardBridge.h:447-553 | each answer to a presented action, in terms of what a preview of the present state would return |
| StoreForwardAnswers.CompletionAnswers | include/modbus_rtu_bridge/StoreForwardBridge.h:557-630 | each answer to a completion, in terms of the action in flight, the outcome and the session |
| StoreForwardAnswers.StaleCompleted | include/modbus_rtu_bridge/StoreForwardBridge.h:594-606 | a write of a session that is over is handed back with its work and neither recorded nor announced |
| StoreForwardAnswers.OneAtATime | include/modbus_rtu_bridge/StoreForwardBridge.h:447-630 | over every run the dispatched actions are those brought to an end, in the same order, followed by at most the one in flight |
| StoreForwardFairness.FairnessTells | include/modbus_rtu_bridge/PollPlanner.h:265-295 | over every run the fairness state records when and which poll was last accepted since the last reset, and how many writes have gone since |
| StoreForwardFreshness.ProposalGoesStale | include/modbus_rtu_bridge/StoreForwardBridge.h:458-478 | presented again with its session and polls, a proposal is accepted if and only if no call has changed the state since; after a change no session or polls make it acceptable, for 2^32 - 2 changes |
| StoreForwardFreshness.CounterReturns | include/modbus_rtu_bridge/StoreForwardBridge.h:778-783 | the non-zero 32-bit revision is back where it was exactly after whole cycles of 2^32 - 1 changes |
| StoreForwardFreshness.AcceptedOnce | include/modbus_rtu_bridge/StoreForwardBridge.h:447-478 | no action is accepted twice in a run unless at least 2^32 - 1 calls lie between |
| ImageCoherence.WorkFitsExactly | include/modbus_rtu_bridge/CacheImage.h:27-34 | an image records every fragment of a Ready work if and only if it covers the work's range |
| ImageCoherence.RecordableExactly | include/modbus_rtu_bridge/CacheImage.h:20-34 | some image records a whole Ready work if and only if the work does not reach the last register address |
| ImageCoherence.LastRegisterIsNeverRecorded | include/modbus_rtu_bridge/CacheImage.h:20-42 | a Ready work on the last register whose only fragment no image can record |
| ImageCoherence.WriteKeepsAgreement | include/modbus_rtu_bridge/CompletionTransition.h:268-301 | whatever addresses share registers, one applied write keeps image and endpoints in agreement if and only if every address inside the image that stands for a register of the write either is an address of a write that fits, or held the written value before |
| ImageCoherence.EveryRunAgrees | include/modbus_rtu_bridge/README.md:351-357 | if for each kind of write that is sent no other address shares the register of an address inside the image and no request can straddle its end, every routed address of the image holds what its endpoint holds after every run in which exactly the writes reported as applied took effect |
| ImageDrift.OneWorkApplied | include/modbus_rtu_bridge/StoreForwardBridge.h:345-630 | for every Ready work in a current session there is a run of three calls that applies exactly its first fragment |
| ImageDrift.AgreementExact | include/modbus_rtu_bridge/README.md:351-357 | for every configuration over a usable table, that agreement survives every run if and only if no work can be admitted or each kind of write that is sent has neither a shared register inside its image nor requests that can straddle its end |
| ImageDrift.SharedRegisterDrifts | include/modbus_rtu_bridge/RouteTable.h:126-145 | two routes to one register: the table is usable, no image cuts a route, image and endpoint start out equal, and some run makes them differ |
| StoreForwardSequences.SequencesConsecutive | include/modbus_rtu_bridge/StoreForwardBridge.h:717-739 | the dispatched actions of a run, polls and writes together and across resets, carry the sequences 1, 2, 3, … through the non-zero 32-bit values, on the action, its wire request and its write |
| StoreForwardSequences.SequencesReturn | include/modbus_rtu_bridge/StoreForwardBridge.h:717-739 | two dispatched actions share a sequence if and only if a whole multiple of 2^32 - 1 dispatches lies between |
| StoreForwardService.ChoiceTakesTurn | include/modbus_rtu_bridge/PollPlanner.h:219-254 | a poll is selected exactly when it is first due in its round and no forward may go first; a forward exactly when it is nobody's turn and one is ready |
| StoreForwardService.PreviewStatusExact | include/modbus_rtu_bridge/StoreForwardBridge.h:707-749 | an unobstructed preview is refused for an invalid poll request if and only if it is the turn of a candidate that would dispatch one, has nothing to do if and only if there is neither work nor a due candidate, and is ready otherwise |
| StoreForwardService.InvalidPollBlocks | include/modbus_rtu_bridge/StoreForwardBridge.h:740-748 | while it stays the turn of an invalid poll, nothing changes in any number of rounds |
| StoreForwardService.PollCarriesCandidate | include/modbus_rtu_bridge/StoreForwardBridge.h:728-749 | a ready poll's candidate is enabled and due, and what is sent is that candidate's own request under a new sequence, or nothing if it needs no dispatch |
| StoreForwardService.WriteSendsFragment | include/modbus_rtu_bridge/StoreForwardBridge.h:755-774 | what a ready forward write sends, in the caller's consistency context, is valid and writes the front work's next addresses through their translations |
| StoreForwardService.EngineServes | include/modbus_rtu_bridge/StoreForwardBridge.h:447-553 | over every run: of any count times (limit + 1) actions accepted while a candidate stays due and nothing is reset, one is that candidate's poll and carries its own request |
| BoundedDrain.AlwaysReady | include/modbus_rtu_bridge/StoreForwardBridge.h:686-776 | with current works and valid polls a preview of a non-empty idle queue is always ready |
| BoundedDrain.RoundProgresses | include/modbus_rtu_bridge/PollPlanner.h:239-249 | every round sends a register, drops a work, or makes the one poll allowed before the next write |
| BoundedDrain.DrainsExactly | include/modbus_rtu_bridge/PollPlanner.h:239-249 | a queue of current works drains in bounded time under all good rounds if and only if the burst limit is at least one or the queue is empty |
| BoundedDrain.QueueDrains | include/modbus_rtu_bridge/PollPlanner.h:239-249 | the queue is empty after at most twice the total remaining quantity of rounds, whatever polls fall due and however writes end |
| DrainingRuns.RoundIsCalls | include/modbus_rtu_bridge/StoreForwardBridge.h:421-630 | one round of the drain is a preview, an admission and a completion of the engine, one after the other |
| DrainingRuns.DrainIsRun | include/modbus_rtu_bridge/StoreForwardBridge.h:421-630 | after the calls of all its rounds, a run is in the state that the drain says |
| DrainingRuns.EveryWorkComesBack | include/modbus_rtu_bridge/StoreForwardBridge.h:557-666 | from any idle state of a run without resets, good rounds hand every admitted work back, in admission order, once, with its own identity and context |

## Left out

- Dispatch to a backend (`executeDownstreamRequest`) and the optional master adapter: thin calls into code that is not part of this model.
- Serial I/O, clocks, threads, locks and retries: the caller's; their results are arbitrary inputs here.
- Storage details of C++: null pointers beyond a presence flag, `memcpy` against scalar copies, object sizes, and addresses handed out by `front` and `at`, which are modelled as reads and as `SetFront`.
- Changing route storage while a plan runs: the library documents route storage as immutable.
- Other users of a bridge's ledger: works that someone else reserved or abandons there are not part of the state machine.
- Preflight, planning and the bridge over tables of more than 32767 routes: an assumption of this model; `Locate`, `LookupsExact` and `LongTablesFail` say what the lookups under them do then.
- A register table index outside the four tables: the type has no such value.
- The planner overload without a request sequence: its requests have no valid identity and never reach completion.
- `copyTo`, `classifyAcceptedIngress`, `admissionOpen`, the default constructors and the plain accessors: they would add only easy members.
- Poll buffers: only whether they are null matters, so what a read puts into them is not modelled.
