# Verified models of the indexers, the planners and the encoders

This project models, in Dafny 4.11, the stateful and algorithmic cores of the repository and proves what
they are for. `dafny verify dfyconfig.toml` checks everything.

| files | subject |
|---|---|
| `Ingest.dfy`, `IngestDiscovery.dfy`, `IngestSlots.dfy`, `IngestCatchUp.dfy`, `IngestLoop.dfy` | the Solana raw ingest: durable cursor, incidents, slot discovery program by program, bootstrap with verification polls, live follow |
| `IngestRuns.dfy`, `IngestHistory.dfy`, `IngestReplay.dfy`, `IngestTransparency.dfy`, `IngestPasses.dfy`, `IngestGaps.dfy`, `IngestWitnesses.dfy`, `IngestHalves.dfy` | what whole runs of it keep, with crashes and restarts anywhere; where they fall short and exactly when |
| `IngestRetention.dfy`, `IngestSurface.dfy` | what it refuses, what each failure leaves behind, and what it shows of itself |
| `Attribution.dfy`, `Correlation.dfy`, `AttributionHandlers.dfy`, `AttributionEviction.dfy`, `PayoutAttribution.dfy` | same-transaction attribution of claim credits through the bounded first-in-first-out map, and whether the reason found is the right one |
| `ClaimLedger.dfy` | the two claim ledgers |
| `Lifecycle.dfy`, `HoldRows.dfy`, `LogEffects.dfy`, `CommerceTables.dfy` | consignment, hold and challenge rows against what the contracts can log, and what each log writes |
| `Bids.dfy` | bid rows and their refunds |
| `BindModes.dfy`, `BindOutcome.dfy`, `BindPrograms.dfy`, `FreshStack.dfy` | the bind-modes planner, the programs it drives, the second plan and the readback |
| `BridgeWire.dfy`, `WireFields.dfy`, `WirePass.dfy` | the bridge pathway wiring pass, and what it says and writes in the fields of the chain |
| `RateLimit.dfy`, `RpcBudget.dfy` | rate limiter, 429 backoff, missing-block retry |
| `Bytes.dfy`, `Encoders.dfy`, `PassportEncoders.dfy` | Borsh instruction encoders and token id bytes |
| `SourceScan.dfy`, `SourceRegistrations.dfy` | comment stripper, brace matcher, registration scan, and what a registration means in the text |
| `Tallies.dfy`, `TallyMeaning.dfy` | the gated tallies of the commons hooks |

## How the models are built

Code that changes state step by step is a class or a method with loops, proved equal to a function over
values; the theorems are about those functions, so they hold of the methods. Where several systems meet,
each has its own definition: the table handlers face an automaton of what the contracts may log, the planner
faces the programs that execute its plan, the encoders face the program's Borsh layout, the position-jumping
comment stripper faces a reader with five states.

What an operation reads and writes is stated a second time, on the fields of its input and its result and without
the functions of the model: what each log writes (`LogEffects`), what each error and result of a wiring pass says of
the chain and what it leaves there (`WireFields`), which reply decides getBlock (`RpcBudget.GetBlockByReplies`), what
a registration is in the text (`SourceRegistrations`), who a tally lists (`TallyMeaning`), what the planner plans or
refuses (`BindOutcome`) and its programs do (`BindPrograms`), and what the ingest refuses and names (`IngestRetention`, `IngestSurface`).

In the ingest model every `await` takes one reply from a script: an answer, an exception (with or without the
write having taken effect), or the end of the process. The script running out is an observation at that
await. A statement about all scripts is therefore a statement about every state between any two awaits of
every run, with crashes, exceptions and restarts anywhere. A slot discovery takes one reply for each followed
program, one after another, so the lists it joins are read at different times. Of the RPC one thing is asked,
and only where a lemma says so: a program's signature list reaches every head answered before it
(`Ingest.Faithful`).

## What came out

Some promises hold only under a condition. The code is modelled as it is; the condition is proved exact.

* **A slot can be lost for good between the lists of two programs.** Discovery pages the followed programs in
  turn. A slot of an early program that lands after its list was read, below a slot of a later program that
  is listed, is a hole of that discovery (`Ingest.Hole`): the watermark passes it, and nothing below the
  watermark is ever taken again (`IngestHistory.PassedForGood`), so it stays lost
  (`IngestWitnesses.GapLosesSlot`, two programs, no failure anywhere). The code does not ensure that there is no
  hole. What every run does keep is that holes are all it can lose (`IngestRuns.DurableCompleteness`): a run is
  complete up to its stored watermark exactly when the holes of its discoveries up to there are settled
  (`IngestRuns.CompleteRunIff`), and the same is proved exact for one live tick (`IngestGaps.LiveTickIff`) and one
  catch-up pass (`IngestGaps.CatchUpIff`).
* **Two slots can be left part-way.** This takes a block that is served once and reported missing later
  (`IngestHalves.MissingAfterServed`), or one reported missing once and served later
  (`IngestHalves.ServedAfterMissing`), or a discovery with a hole (`IngestHalves.GapLeavesTwo`); each of the three is
  enough, and without all three at most one slot is part-way in any run (`IngestHalves.OnePartWayIff`). In every
  run the table is a replay of complete slots and rows of part-way ones, and each of these but the newest got
  both answers from getBlock or was a hole (`IngestTransparency.CrashTransparency`).
* **A dismissed settlement challenge strands the hold row.** When a challenge on a held lot is rejected or
  expires, the contract deletes the hold and closes the lot without any hold event, and only hold events
  clear hold rows. The uncleared rows of a passport are its holds on chain exactly when no lot of it was
  closed that way (`Lifecycle.HoldsMirroredIff`, `Lifecycle.DismissalStrandsARow`), and the row itself stays as it
  was in every later table (`HoldRows.StrandedForGood`). Ordering by creation keeps the query right all the same:
  it finds the lot's own hold, stranded rows or not (`Lifecycle.QueriesFindTheLot`).
* **A bidder who tops their own bid gets the wrong row refunded.** The contract logs the new bid before the
  refund of the old one, and the handler refunds the newest unrefunded row of that bidder. Bids and refunds
  match exactly when no bidder tops their own bid with the bid logged first (`Bids.RefundsMatchIff`).
* **A stored permanent incident does not keep a restarted process halted.** A comment in `initCursor` says it
  does; start-up then runs a catch-up pass, which begins by clearing the halt. The pass ends ready exactly
  when no pending slot is outside the lag window (`IngestPasses.RestartOutcome`).
* **A halt can carry a retriable incident** when the store throws an error of a class the RPC classifier
  recognises while the retention refusal is being written; it cannot otherwise
  (`IngestRuns.HaltsArePermanentIff`).
* **The bind-modes readback fails** after a complete and correct run exactly when Ascending was registered
  before FixedPrice, or alone, at the start (`BindModes.ReadbackIff`).
* **A platform fee can be explained as something else.** Attribution falls back to the account alone, and takes the
  first share that fits. When a dismissed settlement challenge routes its bond to the account that also receives
  the platform fee, as the local deployment sets it up, the failed fee payment is explained by the bond
  (`PayoutAttribution.DismissalMisattributesFee`); when the agent of a split is also the platform recipient and the
  amounts are equal, it is explained as the agent's (`PayoutAttribution.EqualSharesMisattributeFee`). Which share
  explains a credit is computed for every transaction, and the reason is right exactly when that share has the
  same reason and event (`PayoutAttribution.RightIff`). With payouts of different kinds that means: no earlier one
  names the account, and the first share of its own payout with its account and amount has its reason
  (`PayoutAttribution.RightInOneCall`).
* **A second wiring pass sends transactions again** exactly when the snapshot names the zero address for a
  library the pass may set (`BridgeWire.SecondPassQuietIff`, `BridgeWire.ZeroLibraryIsNeverDone`).
* **`Slot 429 was skipped`** is taken for a rate limit first: slot 429 is reported missing only after every
  attempt has used its whole budget (`RpcBudget.Slot429CostsTheWholeBudget`).
* **Concurrent callers defeat the rate limiter**: two calls that wait for the same start begin together
  (`RateLimit.ConcurrentCallsAreNotSpaced`). The starts of a run are spaced at whatever times it takes place exactly
  when no call starts between the entering and the start of another (`RateLimit.SpacedIff`); if every call
  starts in the end, that is when the callers are serial (`RateLimit.SerialIff`).
* **A retried call defeats it too**: the interval runs from the start of a call, so the posts of serial
  callers are spaced exactly when no call is retried (`RpcBudget.PostsSpacedIff`).

The claim ledgers ignore the amount of a withdrawal. They conserve exactly when every withdrawal pays in full
(`ClaimLedger.ConservedIff`), and the contracts always pay in full, so they conserve
(`ClaimLedger.LedgerMirrorsContracts`).

## Model

| member | source | states |
|---|---|---|
| IngestRuns.DurableCompleteness | svm-ingest/ingest-loop.ts:161-224 | in every run with crashes, exceptions and restarts at any await, each relevant slot up to the stored watermark has all its rows and parse refusals, or its missing block on record, or was a hole of a discovery of the run |
| IngestRuns.CompleteRunIff | svm-ingest/ingest-loop.ts:161-224 | everything relevant up to the stored watermark is settled exactly when the holes up to there are |
| IngestTransparency.CrashTransparency | svm-ingest/svm-raw-writer.ts:39-61 | after any such run the stored table is one uninterrupted replay of the complete slots and, of the part-way slots, some of the rows that replay would store; of these all but the newest got both answers from getBlock or were holes |
| IngestTransparency.SteadyRunsHaveOne | svm-ingest/ingest-loop.ts:189-224 | when getBlock answers steadily and no discovery has a hole, at most one slot has some of its rows and not all, refused or not |
| IngestTransparency.RowsAndRefusal | svm-ingest/ingest-loop.ts:189-205 | in any run a slot with rows and a missing block on record was served at one time and missing at another |
| IngestTransparency.OlderPartWay | svm-ingest/ingest-loop.ts:189-205 | in any run, of two part-way slots the older one has its missing block on record and got both answers, or was a hole |
| IngestHalves.MissingAfterServed | svm-ingest/ingest-loop.ts:189-205 | a run in which a slot is reported missing after its first rows were stored, and two slots end part-way |
| IngestHalves.ServedAfterMissing | svm-ingest/ingest-loop.ts:189-224 | a run in which a slot is reported missing, the watermark's write fails, the next slot is stored in part, and after a restart the first is served and stored in part |
| IngestHalves.GapLeavesTwo | lib/svm/ingest-slot-discovery.ts:83-160 | a run with steady answers in which a hole leaves two slots part-way |
| IngestHalves.OnePartWayIff | svm-ingest/ingest-loop.ts:189-224 | at most one slot is part-way in all runs exactly when no block may go missing after it was served, none may be served after it was missing, and no discovery may have a hole |
| IngestReplay.ReingestCompletes | svm-ingest/svm-raw-writer.ts:39-61 | ingesting a slot over any part of it gives the whole slot; over the whole slot it changes nothing |
| IngestReplay.ReplayIsStored | svm-ingest/ingest-loop.ts:161-184 | the stored rows of complete slots equal a fold of the block inserts over those slots, in any order and with repeats |
| IngestHistory.CursorHistory | svm-ingest/ingest-loop.ts:60-67 | over any run at all with restarts stored watermarks never fall and a cleared bootstrap flag never returns |
| IngestHistory.PassedForGood | svm-ingest/ingest-loop.ts:319-350 | whatever follows, the rows and the refusals of a slot the stored watermark has passed never change: what was lost stays lost |
| IngestHistory.NothingPruned | svm-ingest/ingest-loop.ts:319-333 | a slot that was before the first available block at every answer of a run has no row and no refusal of its own: what the RPC has pruned is never passed as if it had been looked at |
| IngestDiscovery.DiscoveryLists | lib/svm/ingest-slot-discovery.ts:83-160 | a discovery lists, in order, exactly the slots from the start slot on and above its watermark that some program's list shows |
| IngestDiscovery.ClosedIff | lib/svm/ingest-slot-discovery.ts:83-160 | the joined listing holds every relevant slot below its end exactly when it has no hole |
| IngestDiscovery.HolesAreLeftOut | lib/svm/ingest-slot-discovery.ts:83-160 | the relevant slots missing below its end are exactly its holes: each landed after the list of a program that has it was read |
| IngestDiscovery.PollPrograms | lib/svm/ingest-slot-discovery.ts:83-160 | one program after another, each with its own answer; memory and store are untouched |
| IngestDiscovery.EmptyMeansNone | svm-ingest/ingest-loop.ts:454-466 | an empty bootstrap listing whose lists reach the head means no relevant slot up to the head |
| IngestGaps.LiveTickIff | svm-ingest/ingest-loop.ts:472-505 | a live tick that moves the watermark leaves everything up to it settled exactly when every hole of its discovery up to there was settled before |
| IngestGaps.CatchUpIff | svm-ingest/ingest-loop.ts:360-467 | of the slots a catch-up pass moves the watermark past, the settled ones are those settled before and those taken from its first listing or found above it by its second, and nothing is left behind exactly when every other relevant one was settled before |
| IngestGaps.TickSettlesListed | svm-ingest/ingest-loop.ts:472-505 | a live tick settles exactly the listed slots between the two watermarks, and no other |
| IngestRuns.ServiceKeeps | svm-ingest/main.ts:51-81 | the durable invariant (rows sound, oldest slot first, everything up to the cursor settled or a hole) holds at every await of every run |
| IngestRuns.ReadySurfaceIsNamed | svm-ingest/http-health.ts:67-75 | in every observable state a halt has an incident, caught_up is answered exactly when the loop is ready, and the last branch of the classifier is never reached |
| IngestRuns.HaltsArePermanentIff | svm-ingest/ingest-loop.ts:94-136 | halts carry permanent incidents in all runs exactly when the store never throws an error the RPC classifier recognises |
| IngestRuns.RetentionWriteMisclassified | svm-ingest/ingest-loop.ts:378-391 | a run in which such a store error leaves the loop halted on a retriable incident |
| IngestRuns.ServiceHaltPermanent | svm-ingest/ingest-loop.ts:94-124 | with plain store errors every halt of every run is on a permanent incident |
| IngestRuns.InitCursor | svm-ingest/ingest-loop.ts:69-86 | restart rebuilds memory and halt from the stored cursor and establishes the invariants of the loop |
| IngestRuns.Tick | svm-ingest/main.ts:71-77 | a tick keeps every invariant, whichever pass it runs |
| IngestRuns.FollowLoop | svm-ingest/follow-loop.ts:33-47 | likewise serial ticks, errors reported and survived |
| IngestRuns.Lifetime | svm-ingest/main.ts:51-81 | one process from start to end keeps the store durable |
| IngestPasses.BootstrapClearsOnlyWhenEnumerated | svm-ingest/ingest-loop.ts:393-467 | the bootstrap flag is cleared only after a first and a verifying discovery, all of which reached every program floor, the last leaving no slot above the watermark |
| IngestPasses.CatchUpProgress | svm-ingest/ingest-loop.ts:360-467 | from any bootstrap state a pass against a healthy RPC ends ready with everything up to the newest listed slot settled, but for holes of earlier discoveries |
| IngestPasses.FollowProgress | svm-ingest/ingest-loop.ts:472-505 | a live tick against a healthy RPC takes every listed slot inside the lag window, and forgets an incident that is tried again, and any other once it takes a slot |
| IngestPasses.RestartOutcome | svm-ingest/ingest-loop.ts:360-367 | a live restart ends ready exactly when no pending slot is outside the lag window, and halted on that incident otherwise, whatever halt was stored |
| IngestRetention.RetentionStops | svm-ingest/ingest-loop.ts:319-333 | a list whose oldest slot is before the first available block: no row and no missing block is stored, the watermark stays, and the loop is halted on the retention incident, with one refusal row that carries that slot and the cursor |
| IngestRetention.ProcessedIff | svm-ingest/ingest-loop.ts:281-351 | whatever the answers, a list in reach is processed with success only if none of its slots is before the first available block; with every call answered, exactly then |
| IngestRetention.WindowStops | svm-ingest/ingest-loop.ts:281-301 | live, with the oldest pending slot outside the lag window: nothing is taken, and the loop is halted on that incident with a refusal row that carries that slot |
| IngestRetention.StartupRefusedIff | svm-ingest/ingest-loop.ts:144-159 | the start slot is refused exactly when it is at or before the head and before the first available block; the loop is then halted, with a refusal row that carries it |
| IngestRetention.TickRefusesPruned | svm-ingest/ingest-loop.ts:472-505 | a live tick against a healthy RPC that has pruned a pending slot takes none and halts on the oldest pending one |
| IngestSurface.PrunedStartEndsPass | svm-ingest/ingest-loop.ts:378-391 | a catch-up pass whose start slot is pruned throws, halted, with nothing listed or stored but the refusal of the start slot |
| IngestSurface.FailureNames | svm-ingest/ingest-rpc-failure.ts:23-45 | an exhausted budget and a broken transport become the incident of their name; any other error is thrown on |
| IngestSurface.CatchUpHeadFails | svm-ingest/ingest-loop.ts:360-377 | a catch-up pass that cannot read the head is un-halted, keeps only a sequence gap or an exceeded window of the incident before, and names the failure or throws it on with nothing stored |
| IngestSurface.FollowHeadFails | svm-ingest/ingest-loop.ts:472-486 | a halted or bootstrapping loop does nothing in a tick; a tick that cannot read the head names the failure or throws it on |
| IngestSurface.FirstAvailableFails | svm-ingest/ingest-loop.ts:304-317 | a list in reach whose first available block cannot be read: the failure is named or thrown on, and no slot is taken |
| IngestSurface.BlockFails | svm-ingest/ingest-loop.ts:334-348 | a pending slot whose block cannot be read: likewise, and neither it nor a later slot is taken |
| IngestSurface.PollFailureNames | svm-ingest/ingest-loop.ts:237-265 | a discovery that fails has the incident of its failure, and incompleteness when the failure has no class |
| IngestSurface.FloorsMissingNames | svm-ingest/ingest-loop.ts:267-279 | a bootstrap discovery short of a program's floor ends the pass on that incident, un-halted, flag and watermark as they were |
| IngestSurface.StillFoundNames | svm-ingest/ingest-loop.ts:434-451 | a verification that still finds a slot after taking the extras ends the pass on incompleteness |
| IngestSurface.CompletedAt | svm-ingest/ingest-loop.ts:454-466 | completion leaves the least watermark that is not below the one before and, while bootstrapping, not below the slot before the start nor, with nothing found, below the head; flag and incident are gone |
| IngestSurface.HaltsOn | svm-ingest/ingest-loop.ts:94-125 | the loop halts exactly on a gap, an exceeded window and retention, and stays halted if it was |
| IngestSurface.RestartReads | svm-ingest/ingest-loop.ts:69-92 | a restart reads watermark, flag and incident as stored, and is halted exactly on a stored incident of those three; a first start stores a cursor just below the start slot |
| IngestSurface.CatchUpLag | svm-ingest/ingest-loop.ts:393-466 | after a pass the lag is zero when no incident is left, else the distance of the watermark from the head |
| IngestSurface.TickLag | svm-ingest/ingest-loop.ts:488-504 | after a tick the lag is the distance of the head from the oldest slot that was pending, from the watermark when the discovery failed, and zero when nothing was pending |
| IngestSurface.SurfaceMeans | svm-ingest/http-health.ts:67-75 | in every state of every run: caught up, bootstrap incomplete and incident are answered each exactly for its reason, with the figures of memory |
| IngestWitnesses.GapLosesSlot | lib/svm/ingest-slot-discovery.ts:83-160 | two programs, no failure: a discovery with a gap moves the stored watermark past a slot that was never taken |
| Ingest.RecordIncident | svm-ingest/ingest-loop.ts:94-124 | a retriable incident neither halts nor leaves a refusal row; memory and store stay in step |
| Ingest.Rescue | svm-ingest/ingest-rpc-failure.ts:23-45 | a classified failure is recorded, any other is thrown on, and no refusal is written |
| IngestSlots.IngestDiscoveredSlotKeeps | svm-ingest/ingest-loop.ts:189-224 | rows first, watermark second: a slot is settled before the watermark reaches it |
| IngestSlots.IngestBlockKeeps | svm-ingest/ingest-loop.ts:161-184 | stored part by part, a block keeps the table sound and oldest-first at every await |
| IngestSlots.PendingMayTake | svm-ingest/ingest-loop.ts:319-334 | the next slot of the list may be taken: everything below it is settled or a hole |
| IngestSlots.TakeSlots | svm-ingest/ingest-loop.ts:319-350 | the slot loop keeps every invariant and reports success only un-halted |
| IngestSlots.ProcessSlotList | svm-ingest/ingest-loop.ts:281-351 | window check, retention and slots keep every invariant |
| IngestCatchUp.DiscoverOrIncident | svm-ingest/ingest-loop.ts:237-265 | a discovery is the union of what the polled programs listed above the watermark and is recorded, or it ends in an incident |
| IngestCatchUp.Enumerate | svm-ingest/ingest-loop.ts:393-402 | a bootstrap discovery is handed on only when every program floor was reached |
| IngestCatchUp.SettleExtras | svm-ingest/ingest-loop.ts:422-452 | it succeeds only when the last poll lists no slot above the watermark |
| IngestCatchUp.CompleteCatchUp | svm-ingest/ingest-loop.ts:454-466 | the watermark may go to the head only when nothing was listed |
| IngestCatchUp.CatchUpFrom | svm-ingest/ingest-loop.ts:393-467 | a pass from its first discovery on keeps every invariant |
| IngestCatchUp.CatchUpToHead | svm-ingest/ingest-loop.ts:360-467 | likewise a whole pass, halts included |
| IngestCatchUp.FollowOnce | svm-ingest/ingest-loop.ts:472-505 | likewise a live tick |
| IngestLoopObject.IngestLoop.DiscoverSlots | lib/svm/ingest-slot-discovery.ts:83-160 | the loop over the programs joins their lists as the model does |
| IngestLoopObject.IngestLoop.RecordIncident | svm-ingest/ingest-loop.ts:94-124 | the method is the step of the model |
| IngestLoopObject.IngestLoop.IngestBlock | svm-ingest/ingest-loop.ts:161-184 | the transaction loop is the step of the model |
| IngestLoopObject.IngestLoop.IngestDiscoveredSlot | svm-ingest/ingest-loop.ts:189-224 | the method is the step of the model |
| IngestLoopObject.IngestLoop.ProcessSlotList | svm-ingest/ingest-loop.ts:281-351 | the method is the step of the model |
| IngestLoopObject.IngestLoop.CatchUpToHead | svm-ingest/ingest-loop.ts:360-467 | the method is the step of the model |
| IngestLoopObject.IngestLoop.FollowOnce | svm-ingest/ingest-loop.ts:472-505 | the method is the step of the model |
| IngestLoopObject.IngestLoop.InitCursor | svm-ingest/ingest-loop.ts:69-86 | the method is the step of the model |
| IngestLoopObject.IngestLoop.FollowLoop | svm-ingest/follow-loop.ts:33-47 | the loop of ticks and pauses is the loop of the model |
| IngestLoopObject.IngestLoop.RunProcess | svm-ingest/main.ts:51-81 | start-up, first pass and follow loop in the order of the source |
| Attribution.OnlineIsOffline | src/commerce-handlers.ts:285-309 | a credit ends with an earlier cause of its transaction, else the first later one whose account and amount fit, and is unknown exactly when none does |
| Attribution.Fate | src/commerce-handlers.ts:285-309 | an explained credit is never touched again; a parked one gets the first fitting cause |
| Attribution.BoundedRefinesUnbounded | src/commerce-handlers.ts:258-278 | the bounded map changes no credit row when fewer transactions than its size start between two logs of the same one |
| Attribution.BoundedIsOffline | src/commerce-handlers.ts:695-742 | with the bound of 2000, when fewer transactions than that start between two logs of the same one, every credit ends with the reason read off the whole log |
| Attribution.NeverOverfull | src/commerce-handlers.ts:262-274 | whatever the logs, the map never holds more than its bound and holds the newest log's transaction |
| Attribution.TouchKeeps | src/commerce-handlers.ts:262-274 | touching creates at most the touched entry, evicts at most the oldest, never the one created |
| Attribution.EvictionLosesReason | src/commerce-handlers.ts:258-274 | for every bound there are streams just at the condition's limit in which a parked credit loses its reason for good |
| AttributionEviction.KeepsReasonIff | src/commerce-handlers.ts:258-309 | a parked credit ends with the reason the unbounded map gives exactly when none fits or, until the first fitting cause is logged, fewer other transactions than the bound have started since its own, as read off the logs |
| AttributionEviction.SurvivesIff | src/commerce-handlers.ts:258-274 | a transaction stays in the map exactly as long as fewer others than the bound have started since |
| AttributionEviction.BoundedFate | src/commerce-handlers.ts:285-309 | from any state, a waiting credit gets its first fitting cause if its entry survives that long and none otherwise |
| PayoutAttribution.CreditEndsAs | src/lib/ponder-commerce.ts:247-274 | over the payouts of one transaction as the contracts log them, each credit ends with the newest earlier payout naming its account and amount, else naming its account, else with its own payout |
| PayoutAttribution.RightIff | src/commerce-handlers.ts:285-309 | over any transaction a credit ends with its own reason and event exactly when the share that explains it has the same |
| PayoutAttribution.RightInOneCall | src/commerce-handlers.ts:285-309 | when its payouts are of different kinds: exactly when no earlier one names the account and the first share of its own payout with its account and amount has the same reason |
| PayoutAttribution.EqualSharesMisattributeFee | contracts/lib/ConsignmentBase.sol:396-425 | a split whose agent is the platform recipient, with equal amounts, has the credited platform fee explained as the agent's |
| PayoutAttribution.DismissalMisattributesFee | contracts/AscendingConsignment.sol:493-516 | a dismissed challenge whose bond goes to the platform's account has the credited platform fee explained as a routed bond |
| AttributionHandlers.ClaimAttribution.GetPendingTxState | src/commerce-handlers.ts:262-274 | lookup, insertion and eviction are the touch of the model |
| AttributionHandlers.ClaimAttribution.ResolveCredits | src/commerce-handlers.ts:295-307 | the loop writes the credits the cause fits and returns the others in order |
| AttributionHandlers.ClaimAttribution.PushCause | src/commerce-handlers.ts:285-309 | the method is the step of the model |
| AttributionHandlers.ClaimAttribution.HandleClaimRecorded | src/commerce-handlers.ts:695-742 | the method is the step of the model |
| AttributionHandlers.ClaimAttribution.HandleAll | src/commerce-handlers.ts:258-309 | a whole stream of logs ends in the state the model runs to |
| Correlation.CorrelateMeans | src/lib/ponder-commerce.ts:247-274 | a claim is explained by the newest earlier cause of its account and amount, else by the newest earlier one of its account, and by nothing exactly when there is none; among causes of one log index the first one pushed that fits wins |
| ClaimLedger.BalanceIsOwed | src/commerce-handlers.ts:743-777 | the balance row is the sum of credits since the last withdrawal, and exists exactly for keys ever credited |
| ClaimLedger.LedgerMirrorsContracts | contracts/lib/ClaimablePayouts.sol:62-92 | over any history of the contracts the balance row is the pending claim, and credited equals paid out plus outstanding after every prefix of the logs |
| ClaimLedger.ContractsConserve | contracts/lib/ClaimablePayouts.sol:60-92 | over any history of the contracts every credit is logged, what is pending was credited since the last withdrawal, and what was withdrawn and what is pending add up to what was credited |
| ClaimLedger.EmittedPaysInFull | contracts/lib/ClaimablePayouts.sol:62-92 | every withdrawal the contracts log pays all that is owed |
| ClaimLedger.ConservedIff | src/index.ts:485-581 | over any logs at all, credited equals paid out plus outstanding after every prefix exactly when every withdrawal pays in full |
| ClaimLedger.KeysIndependent | src/index.ts:512-547 | a row depends on the logs of its own key alone |
| ClaimLedger.RowRemembers | src/lib/ponder-commerce.ts:408-458 | a row keeps the time of its first credit, the time of its last log and the reason of its last credit |
| ClaimLedger.RowIdInjective | lib/claims/ids.ts:3-16 | two keys share a row exactly when their parts agree up to address case |
| ClaimLedger.Ledger.HandleClaimRecorded | src/commerce-handlers.ts:743-760 | the row becomes the run of the logs so far |
| ClaimLedger.Ledger.HandleClaimWithdrawn | src/commerce-handlers.ts:762-777 | likewise; an unknown key is left alone |
| Lifecycle.TablesMirrorContracts | src/commerce-handlers.ts:315-390 | after any stream the contracts can log: one live consignment per lot in the lot's phase, one open challenge per challenge, and each held lot's own hold as the newest uncleared row |
| Lifecycle.QueriesFindTheLot | src/commerce-handlers.ts:349-390 | the find-live queries with limit 1 have no choice: they return the lot's row, its hold and its challenge |
| Lifecycle.UnclearedHolds | src/commerce-handlers.ts:1076-1190 | exact count of the uncleared hold rows of a passport |
| Lifecycle.HoldsMirroredIff | contracts/AscendingConsignment.sol:493-516 | those rows are the holds on chain exactly when no lot was closed by a dismissed settlement challenge |
| HoldRows.StrandedForGood | src/commerce-handlers.ts:1105-1190 | the hold row of a lot closed by a dismissed challenge is unchanged, uncleared and the row of no lot in every later table |
| Lifecycle.StrandedAddUp | src/commerce-handlers.ts:1105-1190 | a passport keeps at least one uncleared row for each such close |
| Lifecycle.DismissalStrandsARow | contracts/AscendingConsignment.sol:506-516 | a stream that leaves one uncleared row and no hold |
| Lifecycle.HoldEndsForGood | src/commerce-handlers.ts:1105-1190 | a hold's end reaches the lot's own row, with buyer and gross as settled, and stays through every later log |
| Lifecycle.CloseIsForGood | src/commerce-handlers.ts:497-511 | a close reaches the lot's own row with the logged reason and stays |
| Lifecycle.EveryStreamKeeps | src/commerce-handlers.ts:431-456 | over any stream at all: ordinals count openings, clearedAt is set exactly in the terminal states, cleared holds and ended challenges never change |
| LogEffects.ChallengeEndsForGood | src/commerce-handlers.ts:1220-1249 | the end of a challenge reaches the row opened for it, which has the logged status and the time of the log after every later log |
| LogEffects.ChallengeEndWrites | src/commerce-handlers.ts:1220-1249 | the end of a challenge writes the logged status and the time to the row opened for it, and nothing else |
| LogEffects.ChallengeOpeningWrites | src/commerce-handlers.ts:1200-1218 | an opened challenge is one new open row, and nothing else |
| LogEffects.OpenedBy | src/commerce-handlers.ts:1200-1218 | the identity of an open challenge is that of the last log of its key, which opened it |
| LogEffects.OpeningWrites | src/commerce-handlers.ts:431-456 | an opening appends one offered row whose ordinal is one more than the openings of the token logged before, and nothing else |
| LogEffects.BidWrites | src/commerce-handlers.ts:991-1028 | a bid makes the lot's own row binding, and changes nothing else |
| LogEffects.SettlementWrites | src/commerce-handlers.ts:1076-1103 | a settlement makes the lot's own row held and appends one active hold with the lot's identity, the buyer and the gross, and nothing else |
| LogEffects.CloseWrites | src/commerce-handlers.ts:497-511 | a close makes the lot's own row returned for reason 0 and closed for any other, and changes nothing else |
| LogEffects.HoldWrites | src/commerce-handlers.ts:1105-1191 | the start of a reversal and each of the four ends write their state, and an end the time, to the lot's own hold row, and nothing else |
| LogEffects.RulingIs | contracts/lib/BondedChallenge.sol:165-228 | a challenge on a held lot takes the hold with it exactly when it was concluded or judged with an outcome other than 0; otherwise the lot is as it was |
| Lifecycle.OrdinalsOneToN | ponder.schema.ts:182-183 | the sale ordinals of a token are exactly 1 to n over both modes |
| Lifecycle.OrdinalsAscend | src/commerce-handlers.ts:337-347 | they ascend in opening order and never exceed the number of openings |
| Lifecycle.FindLiveConsignment | src/commerce-handlers.ts:315-335 | the row found matches the key in a live phase, and none before it does |
| Lifecycle.FindLiveHold | src/commerce-handlers.ts:349-367 | the last inserted uncleared hold of the token |
| HoldRows.LiveHoldByTime | src/commerce-handlers.ts:349-367 | that row is newest by creation time too, and the only newest one exactly when no earlier uncleared hold of the token has the same time |
| Lifecycle.FindOpenChallenge | src/commerce-handlers.ts:369-390 | the last inserted open challenge of the key |
| HoldRows.OpenChallengeByTime | src/commerce-handlers.ts:369-390 | over any stream the contracts can log it is the only newest one by opening time, ties or not |
| CommerceTables.Tables.HandleConsignmentOpened | src/commerce-handlers.ts:431-456 | inserts the row with its ordinal: the step of the model |
| CommerceTables.Tables.CountPriorOpens | src/commerce-handlers.ts:337-347 | counts the rows of the token over both modes |
| CommerceTables.Tables.HandleBidPlaced | src/commerce-handlers.ts:1022-1028 | an offered lot becomes binding: the step of the model |
| CommerceTables.Tables.HandleConsignmentClosed | src/commerce-handlers.ts:497-511 | the step of the model |
| CommerceTables.Tables.HandleSettled | src/commerce-handlers.ts:1076-1103 | the lot is held and its hold inserted: the step of the model |
| CommerceTables.Tables.HandleReversalStarted | src/commerce-handlers.ts:1135-1148 | the step of the model |
| CommerceTables.Tables.HandleHoldEnded | src/commerce-handlers.ts:1105-1190 | the four clearing handlers; only a completed reversal reports a cause, with the row's buyer and gross |
| CommerceTables.Tables.WriteChallengeOpened | src/commerce-handlers.ts:1198-1218 | the step of the model |
| CommerceTables.Tables.ResolveChallengeTerminal | src/commerce-handlers.ts:1220-1249 | the step of the model |
| CommerceTables.RefundNamesTheSettlement | src/commerce-handlers.ts:1164-1173 | the cause of a completed reversal names buyer and gross of the lot's own settlement |
| CommerceTables.Index | src/commerce-handlers.ts:431-1249 | indexing a stream into fresh tables ends in the tables the model runs to |
| Bids.RefundsMatchIff | src/commerce-handlers.ts:991-1074 | every lot's one unrefunded row is its highest and latest bid and every refund is of its own amount, exactly when no bidder topped their own bid with the bid logged first |
| Bids.RefundFirstMatches | src/commerce-handlers.ts:1030-1061 | with the refund logged first they always match |
| Bids.OwnBidToppedSpoils | contracts/AscendingConsignment.sol:396-403 | two bids of one bidder as the contract logs them end with the new bid marked as refunded |
| Bids.FindRefundable | src/commerce-handlers.ts:1039-1051 | the newest unrefunded row of the bidder; ties are the database's choice |
| Bids.BidTable.HandleBidPlaced | src/commerce-handlers.ts:1006-1020 | inserts the bid row |
| Bids.BidTable.HandleBidRefunded | src/commerce-handlers.ts:1030-1074 | marks the row found, and hands on a cause either way |
| Bids.IndexRound | contracts/AscendingConsignment.sol:396-403 | the handlers on the logs of one bid, in the order logged, are the round of the model |
| BindModes.AcceptsExactly | scripts/svm-devnet-bind-modes.ts:307-564 | a runnable plan is accepted exactly where the missing instructions, sent without a plan, would all succeed and leave both modes in place |
| BindModes.AcceptedPlanRuns | scripts/svm-devnet-bind-modes.ts:388-556 | an accepted plan runs to its end exactly when no binding is undecodable or an empty account with lamports, and no padded config has to grow; the chain is then as planned |
| BindModes.PlanConverges | scripts/svm-devnet-bind-modes.ts:388-556 | planning again gives four already_done actions and zero rent |
| BindModes.RegistryAfter | scripts/svm-devnet-bind-modes.ts:461-536 | both modes are registered and bound, old entries stay a prefix, the payer paid the planned total |
| BindModes.ReadbackIff | scripts/svm-devnet-bind-modes.ts:884-961 | the readback passes exactly when FixedPrice preceded Ascending wherever Ascending was registered at the start |
| FreshStack.FreshStackIsBound | scripts/svm-devnet-bind-modes.ts:388-556 | for any rents and balances, a fresh stack is planned as four actions exactly when the payer has two binding rents and what the config lacks for the larger of its new sizes; sent, they take exactly that and the readback passes |
| BindModes.RentIsExact | svm/programs/kar-passport/src/entrypoint.rs:224-260 | right after each planned resize the config has the planned size and is rent-exempt at it; it ends with the largest of its balance and every rent minimum on the way, and the payer paid exactly the planned total |
| BindModes.FinalBalanceCovers | svm/programs/kar-passport/src/entrypoint.rs:224-260 | the final balance covers the rent of every planned size |
| BindModes.PrefetchAnswers | scripts/svm-devnet-bind-modes.ts:1033-1081 | every size the planner asks for was fetched: rent_cache_miss cannot occur |
| BindModes.AddKeepsDistinct | svm/programs/kar-passport/src/entrypoint.rs:280-323 | the program adds no source twice |
| BindModes.PlanBindModes | scripts/svm-devnet-bind-modes.ts:307-564 | the two loops and the sum compute the plan |
| BindOutcome.PlanIs | scripts/svm-devnet-bind-modes.ts:307-564 | for every chain whose rents were fetched: each refusal exactly under its condition on the accounts, and otherwise the four actions with their sizes and rents and their sum |
| BindOutcome.ConfigSize | svm/programs/kar-passport/src/state.rs:34-54 | the size the planner computes for a number of sources is the length of the Borsh form of a config with those sources |
| BindPrograms.AddSourceMeans | svm/programs/kar-passport/src/entrypoint.rs:224-323 | a source is added exactly under the program's conditions on account, authority, prefix, number of entries and rent; the account then has the entry, the bytes of the entry more and the larger of its balance and the rent, and payer and account together keep their lamports |
| BindPrograms.BindMeans | svm/programs/kar-fixed-price/src/ix.rs:438-475 | a mode is bound exactly by its authority, in a new account, when the payer has the rent of 41 bytes; nothing else changes but that payment |
| BindPrograms.PrefetchIsPlanned | scripts/svm-devnet-bind-modes.ts:1033-1081 | the sizes whose rent is fetched are those of a binding, of the config as it is, and of each planned action, and no other |
| BindPrograms.ReadbackMeans | scripts/svm-devnet-bind-modes.ts:884-961 | the readback passes exactly when planning again finds nothing to do and the first two entries of either mode are FixedPrice's and Ascending's, in this order |
| BindModes.PlanBind | scripts/svm-devnet-bind-modes.ts:390-435 | one turn of the binding loop |
| BindModes.PlanRegister | scripts/svm-devnet-bind-modes.ts:461-536 | one turn of the registration loop with its size and rent arithmetic |
| BindModes.PrefetchRents | scripts/svm-devnet-bind-modes.ts:1033-1081 | the cache holds exactly the sizes the dry walk collects |
| BindModes.SendPlanned | scripts/svm-devnet-bind-modes.ts:1274-1291 | planned actions are sent in order and the first refusal ends the run |
| BindModes.FindSource | scripts/svm-devnet-bind-modes.ts:248-253 | the first entry of the program |
| BridgeWire.WriteCleanIff | scripts/bridge-wire.ts:268-634 | a write pass ends without errors exactly when the snapshot is sane and no other receive library is pinned; the side is then wired |
| BridgeWire.ReadOnlyCleanIff | scripts/bridge-wire.ts:268-634 | a read-only pass sends nothing, reports no error exactly on a wired side, and then only skips |
| BridgeWire.WiringConverges | scripts/bridge-wire.ts:268-634 | after a clean write pass a read-only pass only skips, and a write pass sends nothing and changes nothing |
| BridgeWire.SecondPassQuietIff | scripts/bridge-wire.ts:343-413 | after any write pass the next sends nothing exactly when no zero library would be set |
| BridgeWire.ZeroLibraryIsNeverDone | scripts/bridge-wire.ts:343-378 | with the zero address as send library every pass sends it again and it is never pinned |
| BridgeWire.WriteQuietIff | scripts/bridge-wire.ts:268-634 | a write pass sends nothing exactly when nothing is left to do |
| BridgeWire.PinnedReceiveStays | scripts/bridge-wire.ts:393-404 | no pass re-points a receive library pinned elsewhere; it is reported |
| BridgeWire.OptionsWrite | scripts/bridge-wire.ts:585-631 | when any option differs exactly one transaction with all of them is appended, otherwise none; they then match and nothing else changed |
| WireFields.CleanByFields | scripts/bridge-wire.ts:268-634 | a read-only pass is clean exactly when the snapshot is sane and the fields of the chain are as asked; after a clean write pass they are |
| WireFields.WriteLeaves | scripts/bridge-wire.ts:446-634 | whatever was there, a write pass leaves both libraries with the confirmations and exactly the DVNs asked for, the send library with the executor at 10000 bytes, every option set, and peer and libraries as given; no other config and no other option changes |
| WireFields.ReadOnlyErrors | scripts/bridge-wire.ts:268-634 | a read-only pass reports each of the fifteen errors exactly when it is true of the chain's fields |
| WireFields.WriteErrors | scripts/bridge-wire.ts:268-634 | a write pass reports an error exactly when it is true of what it leaves, or kept it from writing |
| WireFields.ResultsMean | scripts/bridge-wire.ts:268-634 | each result of a pass is one that the fields of the chain it found call for, and each they call for is a result |
| WireFields.TransactionsExplain | scripts/bridge-wire.ts:268-634 | the chain after a pass is the chain before it with the listed transactions applied in order |
| WirePass.Wiring.WirePeer | scripts/bridge-wire.ts:294-341 | the section is its stage of the model |
| WirePass.Wiring.WireSendLibrary | scripts/bridge-wire.ts:343-378 | the section is its stage of the model |
| WirePass.Wiring.WireReceiveLibrary | scripts/bridge-wire.ts:380-413 | the section is its stage of the model |
| WirePass.Wiring.WireSendConfig | scripts/bridge-wire.ts:446-492 | the section is its stage of the model |
| WirePass.Wiring.WireReceiveConfig | scripts/bridge-wire.ts:494-528 | the section is its stage of the model |
| WirePass.Wiring.WireOptions | scripts/bridge-wire.ts:557-631 | the loops over the options are the stage of the model |
| WirePass.Wiring.Run | scripts/bridge-wire.ts:268-634 | the whole pass is the pass of the model |
| RateLimit.SerialCallsAreSpaced | svm-ingest/rpc-client.ts:114-130 | with serial callers successive requests start at least 1000/maxRps milliseconds apart |
| RateLimit.WindowBound | svm-ingest/rpc-client.ts:114-130 | so the starts in any window are bounded |
| RateLimit.SpacedIff | svm-ingest/rpc-client.ts:114-130 | for every interleaving of calls: the starts are an interval apart at whatever times exactly when no call starts between the entering and the start of another |
| RateLimit.SerialIff | svm-ingest/rpc-client.ts:114-130 | when every call starts in the end, that is when no call enters while another waits |
| RateLimit.ConcurrentCallsAreNotSpaced | svm-ingest/follow-loop.ts:1-5 | two calls that wait for the start before them begin together |
| RpcBudget.PostsSpacedIff | svm-ingest/rpc-client.ts:114-163 | every post of a call is an interval before the next call's first post exactly when there is no retry; after a retry, with an interval of at most half a second, the next call may post at the moment of the last post |
| RpcBudget.PostsApart | svm-ingest/rpc-client.ts:133-163 | within a call posts are at least half a second apart and after the sum of the delays before them |
| RateLimit.RateLimiter.Schedule | svm-ingest/rpc-client.ts:119-128 | a call with nothing to wait for goes on at once; entering and waking are the steps of the model, and a run followed by such a call is a run |
| RpcBudget.BudgetErrorIff | svm-ingest/rpc-client.ts:133-163 | the budget error comes exactly after maxAttempts rate limits in a row; otherwise the first other answer is passed on; the delay is the sum of the delays before it |
| RpcBudget.With429Backoff | svm-ingest/rpc-client.ts:133-163 | the doubling loop computes the first answer that is no rate limit, the posts and the milliseconds slept |
| RpcBudget.DelaysBounded | svm-ingest/rpc-client.ts:137-158 | delays are min(500 * 2^k, 8000): closed form and bounds of their sum |
| RpcBudget.MissingIff | svm-ingest/rpc-client.ts:256-283 | missing_block is returned exactly when every allowed attempt was missing |
| RpcBudget.FirstAnswerDecides | svm-ingest/rpc-client.ts:256-283 | otherwise the first attempt that is not missing decides |
| RpcBudget.GetBlockByReplies | svm-ingest/rpc-client.ts:256-283 | on the replies alone: missing is reported exactly when the last reply of each of the retries + 1 budgets is null or a failure that says missing; otherwise the last reply of the first budget that does not say so decides: its block is returned or its failure thrown |
| RpcBudget.BudgetIsBackoff | svm-ingest/rpc-client.ts:133-163 | one budget ends with its first reply that is no rate limit, or after maxAttempts rate limits, and that last reply decides |
| RpcBudget.PostsAllowed | svm-ingest/rpc-client.ts:256-283 | getBlock makes at most (retries + 1) * maxAttempts posts |
| RpcBudget.Slot429CostsTheWholeBudget | svm-ingest/rpc-client.ts:79-105 | an error that is a rate limit and a missing block at once uses every budget before it counts as missing |
| RpcBudget.GetBlock | svm-ingest/rpc-client.ts:256-283 | the retry loop computes that outcome |
| Encoders.EncodeIsBorsh | svm/programs/kar-gateway/src/instruction.rs:4-51 | each hand-written concatenation is the tag and the Borsh fields of the program's instruction enum |
| Encoders.DecodeEncode | scripts/svm-devnet-y4-prove.ts:94-138 | the program reads back what was encoded; only a namespace over 128 bits is cut |
| Encoders.EncodeInjective | scripts/svm-devnet-y5-rt.ts:118-140 | encoding is injective over all instructions together, up to that cut |
| Encoders.EncodeDecode | scripts/svm-devnet-y4-prove.ts:94-138 | no other bytes decode: what is read encodes to the bytes it came from |
| Encoders.EncodeThrowsIff | scripts/svm-devnet-init.ts:74-91 | the encoders throw exactly on a number or length that does not fit its field |
| PassportEncoders.PassportIsBorsh | svm/programs/kar-passport/src/instruction.rs:8-20 | the two passport encoders are the tag and the Borsh fields of that program's enum |
| PassportEncoders.DecodeEncodePassport | scripts/svm-devnet-init.ts:51-93 | that program reads back what was encoded; only a namespace over 128 bits is cut |
| Encoders.EncodeU128Le | scripts/svm-devnet-init.ts:41-49 | the shifting loop writes the low sixteen bytes, little-endian |
| Encoders.EncodeVecU8 | scripts/svm-devnet-y4-prove.ts:94-99 | a 32-bit length and the bytes |
| Encoders.PriorTokenIdBytes | scripts/svm-devnet-bind-modes.ts:627-641 | the 32-byte big-endian form of n - 1, and null exactly for zero |
| Encoders.TokenIdRoundTripIff | scripts/svm-devnet-y5-rt.ts:113-116 | a token id becomes its own 32 bytes exactly when it has at most 256 bits |
| Bytes.RoundTripIff | scripts/svm-devnet-init.ts:41-49 | a number is read back from its bytes exactly when it fits the width |
| SourceScan.StripLeavesNoMarker | scripts/generate-svm-event-manifest.ts:64-83 | no comment marker survives, stripping twice is stripping once, and a source is unchanged exactly when it has no marker |
| SourceScan.StripIsAutomaton | scripts/generate-svm-event-manifest.ts:64-83 | the position-jumping loop agrees with a five-state reader on every source |
| SourceScan.StripJsComments | scripts/generate-svm-event-manifest.ts:64-83 | the loop computes that output |
| SourceScan.IsHandlerBodyEmpty | scripts/generate-svm-event-manifest.ts:85-87 | empty exactly when all that is outside comments is white space |
| SourceScan.FindMatchingBrace | scripts/generate-svm-event-manifest.ts:89-100 | the least closing position, and a throw exactly when there is none |
| SourceScan.SpanIsBalanced | scripts/generate-svm-event-manifest.ts:89-100 | from an opening brace the depth stays positive until the match |
| SourceRegistrations.MatchBalances | scripts/generate-svm-event-manifest.ts:89-100 | the match is the first closing brace up to which as many braces are opened as closed, and there is none exactly when there is no such brace |
| SourceScan.ScanInOrder | scripts/generate-svm-event-manifest.ts:102-155 | registrations are found in source order without overlap |
| SourceScan.ScanCovers | scripts/generate-svm-event-manifest.ts:102-155 | no call with a closed first string is missed: it starts a span or lies inside one |
| SourceRegistrations.ScanMeans | scripts/generate-svm-event-manifest.ts:102-155 | every span is a call whose first string is the contract, a colon and the event; it carries a registration of the two exactly when the contract is known and the event a word, with the handler between the first brace after the first arrow and its match, empty exactly when all of it outside comments is white space; an error says which call it is about and what that call lacks |
| SourceRegistrations.ParseMeans | scripts/generate-svm-event-manifest.ts:102-155 | the result is the registrations of such spans in source order, or such an error |
| SourceScan.ParsePonderRegistrations | scripts/generate-svm-event-manifest.ts:102-155 | the search loop terminates with those registrations or the first error |
| Tallies.ListedIff | hooks/use-commons-reviews.ts:108-139 | an attester is listed exactly when an entry of that verdict passes both gates |
| Tallies.ListedOnce | hooks/use-commons-reviews.ts:108-139 | with one entry per author and claim, at most once over endorsers and rejecters together |
| Tallies.ListedAsOftenAsCounted | hooks/use-commons-reviews.ts:108-139 | without that, exactly as often as entries pass |
| Tallies.OrderDoesNotMatter | hooks/use-commons-reviews.ts:133-136 | the sorted tally does not depend on the order of the entries |
| Tallies.PubkeysAreBound | hooks/use-commons-reviews.ts:124-126 | the recorded pubkeys are those of the endorsers, each the bound one |
| Tallies.VerifiedByClaim | hooks/use-commons-reviews.ts:108-139 | the loops compute the tally of every mentioned claim |
| TallyMeaning.TalliesMean | hooks/use-commons-reviews.ts:108-139 | in the tallies returned a claim appears exactly when someone is admitted for it; an attester is listed on a side exactly when an active one, bound to the author of an entry of that claim and verdict, is; the lists are sorted, the pubkeys the bound ones of the endorsers |
| Tallies.ConfirmedIff | hooks/use-commons-confirmations.ts:90-109 | a confirmer is listed once, exactly when an entry passes both gates |
| Tallies.ConfirmationsIgnoreOrderAndRepeats | hooks/use-commons-confirmations.ts:90-109 | the sorted list depends only on which entries there are |
| Tallies.ConfirmationsByManifest | hooks/use-commons-confirmations.ts:90-109 | the loops compute that list |
| TallyMeaning.ConfirmationsMean | hooks/use-commons-confirmations.ts:90-109 | likewise for the confirmations returned, each attester once |
| Tallies.SortedIsUnique | hooks/use-commons-reviews.ts:133-136 | a sorted list is fixed by what it holds |

## Left out

- IngestSlots.CaptureMetadata: does not model the snapshot rows, because their content depends on the time of the fetch; the call and the write are still points where a run may fail.
- IngestSlots.Project: does not model the projected tables; their reducers live in other files and start empty on each process start.
- IngestDiscovery.PollPrograms: models the pages of one program as one answer; a slot that lands while they are read counts as landing after it, and the early stop of live follow at the watermark and the page counts are not modelled.
- Signatures below a program's deploy slot, which discovery drops, are not among the slots of a program in the model.
- IngestCatchUp.AssertStartupRetention: models the retention rule as start slot against first available block at or before the head; details of its message are not modelled.
- Block contents and transaction parsing are a function of the slot with fixed row ids; a process that is killed is modelled, two processes on one store are not.
- Lifecycle.Handle: does not model prices, fees, terms, notes, buyers of fixed-price lots, payment tokens, mandates, recalls, settlement rows and the judge, outcome and bond recipient of a challenge, which are each one field update on the row the same query finds.
- Primary keys come from transaction hash and log index and are taken to be distinct; an insert that conflicts is not modelled.
- Lifecycle.May: allows more streams than the contracts in places that do not matter to the proofs (a lot may close while binding).
- Bids.Placed: does not model the end time of a bid and the extended flag computed from it.
- Address checksums: addresses are compared as given or lower-cased; checksum casing and its errors are not modelled.
- ClaimLedger.Step: carries one reason field for both ledgers, though only `pending_claim` stores one; does not model the credit rows beside the balance row nor the inference of a reason from call data.
- BindModes.Plan: does not model the account lists, the instruction bytes and the derivation of addresses of a planned action, nor base58 decoding; source prefixes are compared as bytes.
- BindModes.Execute: does not model transaction fees; only rent is charged.
- BridgeWire.WireSide: reads see the writes before them at once; polling for a lagging node and a reverted transaction are not modelled, nor the star-topology checks of the snapshot.
- BridgeWire.ZeroLibraryIsNeverDone: holds of an endpoint that takes any setting; one that refuses to set the value already in place would revert the call instead.
- BridgeWire.ExpectedUln: holds the required DVNs as a set, because the builder sorts and removes duplicates; any other encoding of the same set counts as different.
- RateLimit.RateLimiter.Schedule: times are real numbers and timers do not fire early; a runtime that truncates a fractional delay may start a call up to a millisecond sooner.
- PayoutAttribution.PayoutLogs: logs the failed pushes of one payout in the order of its shares; assets are not compared, as in the source.
- SourceScan.IsSpace: lists the ASCII white space, the no-break space and the byte order mark; other Unicode spaces are left out.
- Building manifest entries from ABI types is a table lookup and is left out.
- User interface, transports, HTTP servers, Postgres, key handling, deployment and smoke scripts, schema checks and the projection of raw rows are left out.
