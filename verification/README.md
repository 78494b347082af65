# Verified models of the Sentinel gateway

Dafny models of the gateway's trust and membership state machines and of five
self-contained algorithms, with proofs of what the system promises over whole
runs. `dafny verify dfyconfig.toml` checks everything.

## What is modelled

**Family circles** (`KeyWraps`, `Circles`, `CircleRuns`, `CircleLaws`, `CircleRaces`,
`CircleStore`).
A circle row with its member and location rows, and each handler as one step.
Any sequence of requests is a run: a refused request changes nothing. `CircleRuns`
proves the row invariant, that removal cuts a member off, and that optimistic
epoch commits are sound. `CircleStore.Store` holds the columns and updates them
statement by statement; every handler is proved to perform its step, so every
state of a store is a state of a run. `CircleRaces` splits publication into the
check and the insert it really is, and proves that this touches location rows
only and exactly when it does harm.

**Trust ladder** (`TrustContract`, `TrustLadder`, `LadderRuns`, `LadderRaces`,
`LadderLaws`, `LadderWorker`). Cluster lookups, inserts, expiries, statistics reads, promotions,
subscription changes and delivery purges in any interleaving. A statistics row
that any replica has read stays in `seen` for ever, and a lookup in `looked`, so
promotions and inserts may act on arbitrarily stale reads.

**Reports, reputation and decay** (`Consensus`, `Personhood`, `Decay`, `Reports`,
`ReportRuns`, `ReportLaws`, `DecayRaces`, `ReportService`). The vote ledger, the status it drives, the
reputation that drives later vote weights, and decay writes from arbitrarily old
reads.

The `Laws` modules say what one request or a whole history makes of the tables in
the design's own numbers, without the functions that compute it.

**Push outbox** (`Outbox`, `OutboxWorker`). Leases, fenced completion and bounded
retries with any number of workers.

**Algorithms** (`Polyline`, `AcousticWeights`, `RateLimits`, `AudioWindows`,
`ChatMerge`). The loops of the source are methods proved against specification
functions whose own properties are proved as lemmas.

## Assumptions

- Circle tokens are an injective function of circle and pubkey; signatures,
  HMACs and encryption are ideal. `signatureOk` stands for event verification.
- A handler that locks its circle, report or event row is one atomic step. So are,
  without such a lock: `create_circle` and `delete_circle` (one statement each),
  `set_encryption` (its owner check reads a column that never changes),
  `create_report` (one transaction whose first statement locks the author's row),
  a claim, a completion and a decay write (one statement each), and
  `list_envelopes`, which reads membership and rows in two statements.
  `push_envelope` is atomic in `Circles` and split in `CircleRaces`;
  `handle_message` and `expire_stale_events` are split everywhere, with the
  one-step expiry as a further move.
- The clock of an ingest is the start of its transaction, for the lookup window
  and for the signal it stages. Among equally recent matches the lookup takes the
  last staged; the query leaves that choice open.
- The comparison of two sorted token lists in `commit_epoch` is multiset equality.
- Circles are those made by `create_circle`; circle ids are not reused. Rows
  that predate key-wrap version 2 are outside the model.
- The size, JSON and base64 checks of an envelope, its rate key and the replay
  index are boolean inputs of the publish request.
- The clock, the caller, the fresh event id, distances (`nearby`, `area`) and the
  set of vouches are inputs. The clock is assumed not to go backwards only where
  a lemma says so (`RateLimits.Ordered`).
- Integers are unbounded except in `Polyline`, where the 64-bit accumulator and
  the checked additions are explicit. `f32` and `f64` are reals; `round` is half
  away from zero.
- User rows follow `infra/postgres/schema-v2.sql`: the effective score is never
  null and starts at zero, like the earned score.
- A claim takes any subset of the claimable rows: the query skips rows that other
  workers have locked. `OutboxWorker` takes at most the batch size.
- Message ids compare by code point.

## Where the code differs from what is written about it

- The limiter is called a sliding window (services/gateway/src/routes/reports.rs:26).
  It is a fixed window opened by the first check after the previous one ended, so
  nearly twice the maximum fits in one window length: exactly `2 * max - 1`
  (`RateLimits.BurstBound`, `RateLimits.BurstBoundIsReached`). It keeps the
  promise of a sliding window if and only if the maximum is one
  (`RateLimits.SlidesIffMaxIsOne`).
- Expiry is said to keep signals from ever rejoining a dead cluster
  (services/gateway/src/subscribers/nlp_synthesis_worker.rs:121-124). Neither its
  two updates nor the lookup and the insert of an ingest exclude each other, and
  each gap lets a signal join (`LadderRaces.SplitExpiryLetsSignalsJoin`,
  `LadderRaces.OvertakenIngestJoins`). A signal joins a dead event if and only if
  the latest match was left pending on one at the lookup, or the event found
  expired between lookup and insert (`LadderRaces.JoinsDeadIff`). With both
  updates of every expiry in one step, a run has such a signal if and only if some
  insert was overtaken by an expiry (`LadderRaces.DeadJoinIffOvertaken`).
- A commit between a publication's check and its insert leaves a location row of
  an old epoch (`CircleRaces.StaleBlobIsReachable`); the row is current if and
  only if no commit came in between (`CircleRaces.InsertIsCurrentIffNoCommit`).
- A removal in the same gap brings the removed member's location row back
  (`CircleRaces.OutsidersBlobIsReachable`). What is inserted after a removal is
  above its epoch and somebody else's if and only if it had not passed its check
  before (`CircleRaces.CutOffIffCheckedAfter`).
- Verification is said to reset decay (services/gateway/src/reports/service.rs:344-347).
  A decay pass that read the author before and writes after undoes the reset
  (`DecayRaces.StaleDecayUndoesReset`); until the next verification or decay read
  of the author, the reset lasts if and only if there is no such write
  (`DecayRaces.ResetLastsIffNoStaleWrite`).
- The acoustic cap is a quarter of the uncapped trust. It is also a quarter of
  the capped mass if and only if nothing was capped
  (`AcousticWeights.QuarterOfMassIffUncapped`).
- The polyline decoder accepts thirteen chunks, so it undoes the encoder exactly
  for deltas in `[-2^62, 2^62)`, more than coordinates need.

## Model

| member | source | states |
|---|---|---|
| `KeyWraps.AcceptedWrapIsBound` | services/gateway/src/routes/circles.rs:152-198 | an accepted key wrap is signed by the owner and bound to this circle, this epoch and the recipient it names |
| `KeyWraps.AcceptedIff` | services/gateway/src/routes/circles.rs:152-198 | exactly what is accepted: the owner's signature, kind, type, a minute's freshness, 1 to 4096 bytes of content, and the bindings |
| `KeyWraps.SingleTagIff` | services/gateway/src/routes/circles.rs:126-148 | a single tag is the only one of its name that has a value |
| `KeyWraps.DecimalInjective` | services/gateway/src/routes/circles.rs:182-182 | comparing epochs as decimal text loses nothing: different epochs print differently |
| `KeyWraps.WrapBindsOnce` | services/gateway/src/routes/circles.rs:126-198 | a wrap cannot be replayed: any two acceptances agree on owner, circle, epoch and recipient |
| `Circles.LabelsLandOnTheirRows` | services/gateway/src/routes/circles.rs:645-655 | label updates touch exactly the labels of the rows they name, and each named row ends with a label submitted for it |
| `Circles.WrapsLandOnTheirRows` | services/gateway/src/routes/circles.rs:633-644 | wrap updates touch exactly the rows they name, and each named row ends with a wrap submitted for it |
| `CircleRuns.CommitReseals` | services/gateway/src/routes/circles.rs:571-655 | an accepted commit leaves every active member a wrap by the owner, for that member, at the new epoch, with the label submitted for it, and every pending row as it was |
| `CircleRuns.StepKeepsInv` | services/gateway/src/routes/circles.rs:257-800 | every request keeps the row invariant |
| `CircleRuns.ReachableInv` | services/gateway/src/routes/circles.rs:394-470 | in every reachable state: active wraps are at the circle epoch, all wraps are addressed to their row and not newer, the owner is no member, at most 25 members, protocol 1 exactly above epoch 1, and, with publication atomic, every location row is at the current epoch by the owner or a member |
| `CircleRuns.ReinviteKeepsBlob` | services/gateway/src/routes/circles.rs:441-454 | re-inviting a member who has published leaves its location row while it may no longer publish |
| `CircleRuns.StepMovesEpoch` | services/gateway/src/routes/circles.rs:576-629 | epochs move by accepted commits only, by one, and only a commit clears the rekey flag |
| `CircleRuns.StepMovesRevision` | services/gateway/src/routes/circles.rs:466-469 | whatever changes membership bumps the revision |
| `CircleRuns.StepAddsOnlyInvited` | services/gateway/src/routes/circles.rs:435-464 | only an accepted invitation gives a token a member row |
| `CircleRuns.LiveSpan` | services/gateway/src/routes/circles.rs:546-723 | along a run the owner stays, and epoch and revision never fall |
| `CircleRuns.RemovedStaysOut` | services/gateway/src/routes/circles.rs:678-723 | from a removal at epoch e until a re-invitation the member has no row, and the circle is above e or awaits a rekey |
| `CircleRuns.PublicationAfterRemoval` | services/gateway/src/routes/location_blobs.rs:116-179 | each publication that is checked and inserted in one step after the removal is at an epoch above e and by somebody else |
| `CircleRuns.NoWrapAfterRemoval` | services/gateway/src/routes/circles.rs:546-661 | every wrap ever stored for the removed member is at an epoch up to e |
| `CircleRuns.RemovalCutsOff` | services/gateway/src/routes/circles.rs:678-723 | both together, for all atomic publications and all stored wraps of every run, before and after the removal |
| `CircleRuns.RevisionPinsMembership` | services/gateway/src/routes/circles.rs:533-536 | two states of a run with equal revision have the same members in the same membership states |
| `CircleRuns.CommitWrapsObservedMembers` | services/gateway/src/routes/circles.rs:571-610 | a commit prepared from an observed state wraps exactly the members active when it lands, and each then holds the wrap submitted for it |
| `CircleRuns.PreparedCommitIsAccepted` | services/gateway/src/routes/circles.rs:571-622 | conversely, a well-formed commit is accepted as long as membership and epoch have not moved |
| `CircleRuns.OneCommitPerEpoch` | services/gateway/src/routes/circles.rs:576-580 | at most one commit is accepted per epoch |
| `CircleLaws.RemovalIsAcceptedIff` | services/gateway/src/routes/circles.rs:696-708 | a removal is accepted exactly when the owner removes a member or a member leaves |
| `CircleLaws.CircleChangesByOwner` | services/gateway/src/routes/circles.rs:568-570 | only the owner deletes the circle or changes its name, epoch or protocol |
| `CircleLaws.RowChangesByOwnerOrSelf` | services/gateway/src/routes/circles.rs:372-723 | a member row is made, changed or dropped only by the owner or the member itself |
| `CircleLaws.BlobChangesBySender` | services/gateway/src/routes/location_blobs.rs:150-193 | a location row appears or changes only by its sender, and goes only by owner, sender, or a sweep past its expiry |
| `CircleLaws.LifecycleIsAcceptedIff` | services/gateway/src/routes/circles.rs:744-800 | when creation, deletion and renaming are accepted |
| `CircleLaws.DeletedStays` | services/gateway/src/routes/circles.rs:786-800 | a deleted circle stays deleted |
| `CircleLaws.InvitationIsAcceptedIff` | services/gateway/src/routes/circles.rs:382-438 | an invitation is accepted exactly from the owner, for somebody else, with a fresh wrap for them at the current epoch, below 25 rows |
| `CircleLaws.MembershipStep` | services/gateway/src/routes/circles.rs:441-536 | what one request makes of one member row |
| `CircleLaws.MemberIffInvited` | services/gateway/src/routes/circles.rs:435-464 | somebody has a row exactly when invited and not removed since |
| `CircleLaws.ActiveIffAccepted` | services/gateway/src/routes/circles.rs:488-536 | nobody is active without consent: exactly who accepted and was neither invited again nor removed since |
| `CircleLaws.EpochCountsCommits` | services/gateway/src/routes/circles.rs:576-629 | the epoch is unchanged between two states exactly when no commit was accepted |
| `CircleLaws.AcceptableIffNoCommitSince` | services/gateway/src/routes/circles.rs:515-524 | an invitation can be accepted exactly until the next commit |
| `CircleLaws.WrapsWereFresh` | services/gateway/src/routes/circles.rs:168-173 | every stored wrap came with an accepted invitation or commit made within a minute of it |
| `CircleLaws.RelabelLands` | services/gateway/src/routes/circles.rs:763-780 | rewriting labels touches exactly the rows named |
| `CircleLaws.CountersCount` | services/gateway/src/routes/circles.rs:466-469 | the revision counts accepted membership changes, the epoch is one more than the accepted commits |
| `CircleLaws.NameIsLastSet` | services/gateway/src/routes/circles.rs:623-631 | the name is the one set last |
| `CircleLaws.ReadyIffCommittedSinceRemoval` | services/gateway/src/routes/location_blobs.rs:116-129 | the circle takes locations exactly when an epoch was committed and nobody removed since, at that epoch only |
| `CircleLaws.PublicationIsAcceptedIff` | services/gateway/src/routes/location_blobs.rs:84-180 | exactly when a publication is accepted |
| `CircleLaws.BlobIffPublished` | services/gateway/src/routes/location_blobs.rs:183-193 | a location row stands exactly when its sender published it and no newer one, commit, removal or sweep came since |
| `CircleRaces.RaceTouchesOnlyBlobs` | services/gateway/src/routes/location_blobs.rs:161-193 | with check and insert apart, a run is the run of its requests in everything but location rows, so epochs, members, wraps and revisions are as proved for atomic runs |
| `CircleRaces.RaceKeepsRows` | services/gateway/src/routes/circles.rs:394-470 | the row invariant of every reachable state survives the race but for its location rows |
| `CircleRaces.BlobsWereAuthorised` | services/gateway/src/routes/location_blobs.rs:161-193 | with check and insert apart, every stored location row was authorised for its sender and epoch in some earlier state |
| `CircleRaces.TicketsWereChecked` | services/gateway/src/routes/location_blobs.rs:84-179 | every publication in flight passed the checks on its envelope and its sender |
| `CircleRaces.EpochSpan` | services/gateway/src/routes/circles.rs:623-629 | in the finer model too, the epoch is unchanged between two states exactly when no commit was accepted between them |
| `CircleRaces.InsertIsCurrentIffNoCommit` | services/gateway/src/routes/location_blobs.rs:161-193 | an insert is at the circle's epoch if and only if no commit was accepted since its check |
| `CircleRaces.StaleBlobIsReachable` | services/gateway/src/routes/location_blobs.rs:179-193 | in every circle some interleaving, with a valid envelope, leaves a location row of an old epoch |
| `CircleRaces.RemovedStaysCut` | services/gateway/src/routes/circles.rs:678-723 | with the race too, a removed member has no row until re-invited, and the circle is past the epoch of the removal or awaits a rekey |
| `CircleRaces.CutOffIffCheckedAfter` | services/gateway/src/routes/location_blobs.rs:161-193 | what is inserted after a removal at epoch e is above e and somebody else's if and only if it had not passed its check before the removal |
| `CircleRaces.OutsidersBlobIsReachable` | services/gateway/src/routes/location_blobs.rs:179-193 | in every circle and for every member some interleaving brings a removed member's location row back |
| `CircleStore.Store.CreateCircle` | services/gateway/src/routes/circles.rs:257-291 | performs the create step on the columns and gives its reply |
| `CircleStore.Store.AddMember` | services/gateway/src/routes/circles.rs:372-470 | performs the add step: all refusals in order, the upsert as pending, the revision bump |
| `CircleStore.Store.AcceptMember` | services/gateway/src/routes/circles.rs:488-537 | performs the accept step, refusing absent, active and stale invitations |
| `CircleStore.Store.AllWrapsValid` | services/gateway/src/routes/circles.rs:612-622 | the loop answers whether every wrap validates and belongs to the token it is submitted for |
| `CircleStore.Store.StoreWraps` | services/gateway/src/routes/circles.rs:633-644 | the update loop ends in the specified rows |
| `CircleStore.Store.StoreLabels` | services/gateway/src/routes/circles.rs:645-655 | the update loop ends in the specified rows |
| `CircleStore.Store.CheckCommit` | services/gateway/src/routes/circles.rs:559-622 | the checks before the first write, in order |
| `CircleStore.Store.CommitEpoch` | services/gateway/src/routes/circles.rs:546-661 | performs the commit step: columns, wraps, labels, and the deletion of all location rows |
| `CircleStore.Store.RemoveMember` | services/gateway/src/routes/circles.rs:678-723 | performs the remove step on member row, location row, rekey flag and revision; accepted exactly from the owner or the member itself |
| `CircleStore.Store.SetEncryption` | services/gateway/src/routes/circles.rs:744-784 | performs the step that rewrites name and labels only |
| `CircleStore.Store.PushEnvelope` | services/gateway/src/routes/location_blobs.rs:150-201 | performs the publish step with all its refusals in order |
| `CircleStore.Store.ListEnvelopes` | services/gateway/src/routes/location_blobs.rs:210-233 | shows the owner and active members exactly the unexpired location rows, and nobody else anything |
| `CircleStore.Store.Sweep` | services/gateway/src/subscribers/retention_worker.rs:72-72 | performs the step that drops exactly the expired location rows |
| `CircleStore.Store.DeleteCircle` | services/gateway/src/routes/circles.rs:786-800 | performs the delete step, for the owner only |
| `TrustContract.DecideMonotone` | services/gateway/src/trust/contract.rs:58-68 | more distinct sources or channels never lower the decision |
| `LadderRuns.ReachableInv` | services/gateway/src/subscribers/nlp_synthesis_worker.rs:98-269 | in every interleaving: signals and events are linked, signals of active events are pending, statistics in flight never exceed the evidence, tiers are earned, push is gated to confirmed |
| `LadderRuns.TierNeverFalls` | services/gateway/src/subscribers/nlp_synthesis_worker.rs:228-253 | along a run a stored tier never falls and an expired event stays expired |
| `LadderRuns.TierNeverExceedsEvidence` | services/gateway/src/subscribers/nlp_synthesis_worker.rs:162-269 | whatever stale counts replicas promote from, the tier never exceeds the decision on all signals ever linked |
| `LadderRuns.DuplicatesAreNoEvidence` | services/gateway/src/subscribers/nlp_synthesis_worker.rs:158-172 | a repeated source and channel leaves the evidence of every event unchanged |
| `LadderRuns.ExactPromotion` | services/gateway/src/subscribers/nlp_synthesis_worker.rs:228-253 | promoting from counts that are still fresh lands exactly on the evidence and changes no other event |
| `LadderRuns.FreshPromotionIsExact` | services/gateway/src/subscribers/nlp_synthesis_worker.rs:106-116 | in every run, reading statistics and then promoting gives the tier recomputed from scratch |
| `LadderRuns.ConfirmEnqueuesMatching` | services/gateway/src/subscribers/nlp_synthesis_worker.rs:322-355 | the confirming step enqueues one delivery per subscription matching then |
| `LadderRuns.PushExactlyOnce` | services/gateway/src/subscribers/nlp_synthesis_worker.rs:206-274 | across replicas and runs: no deliveries below confirmed; afterwards exactly one per subscription that matched at the confirming step |
| `LadderRuns.ConfirmedOnce` | services/gateway/src/subscribers/nlp_synthesis_worker.rs:271-274 | an event is confirmed by one step only |
| `LadderLaws.EvidenceIsIndependence` | services/gateway/src/trust/contract.rs:53-68 | confirmed takes signals of three sources and of two channels, corroborating of two sources |
| `LadderLaws.TierMeansIndependence` | services/gateway/src/subscribers/nlp_synthesis_worker.rs:200-269 | in every run a confirmed event has linked signals of three sources and of two channels, a corroborating one of two sources |
| `LadderLaws.FreshPromotionIsIndependence` | services/gateway/src/subscribers/nlp_synthesis_worker.rs:228-253 | a fresh read and promotion lifts an active event exactly as far as its signals go |
| `LadderLaws.FreshPromotionShows` | services/gateway/src/subscribers/nlp_synthesis_worker.rs:233-253 | the counts shown are the distinct sources, distinct channels and number of linked signals |
| `LadderLaws.ReadTakes` | services/gateway/src/subscribers/nlp_synthesis_worker.rs:162-192 | a statistics read has one row per event with a pending signal, with those counts over pending signals |
| `LadderLaws.ExpiresIffTooOld` | services/gateway/src/subscribers/nlp_synthesis_worker.rs:125-142 | an event expires exactly when an expiry finds it active, heuristic past 30 minutes or corroborating past two hours; confirmed ones never |
| `LadderLaws.RetiresIffExpires` | services/gateway/src/subscribers/nlp_synthesis_worker.rs:144-153 | a one-step expiry retires exactly the signals of the events it expires |
| `LadderLaws.LookupMeans` | services/gateway/src/subscribers/event_subscriber.rs:205-217 | a lookup finds the latest pending signal of the same cell and kind less than 30 minutes old, and nothing exactly when there is none |
| `LadderLaws.InsertMeans` | services/gateway/src/subscribers/event_subscriber.rs:222-281 | an insert adds the report to the event found, or surfaces a heuristic event with it |
| `LadderLaws.NotifiedIffCovered` | services/gateway/src/subscribers/nlp_synthesis_worker.rs:339-351 | a subscription is notified once of an event it covered, by centre, severity and area, at the confirming move, and of no other |
| `LadderLaws.QueuedUntilPurged` | services/gateway/src/subscribers/nlp_synthesis_worker.rs:339-351 | such a delivery is queued by that move and stays until purged |
| `LadderRaces.LookupFindsLatest` | services/gateway/src/subscribers/event_subscriber.rs:205-217 | the cluster lookup finds the most recent pending match in the window, and nothing only when nothing matches |
| `LadderRaces.OnlyStagesJoin` | services/gateway/src/subscribers/event_subscriber.rs:222-281 | a step links a signal to a dead event exactly when it is an insert whose lookup found that event |
| `LadderRaces.DeadIffExpiredSince` | services/gateway/src/subscribers/nlp_synthesis_worker.rs:126-142 | an event is dead exactly when it was before or some step since expired it |
| `LadderRaces.JoinsDeadIff` | services/gateway/src/subscribers/event_subscriber.rs:203-283 | an ingest joins a dead event if and only if the latest match at its lookup was left pending on one, or the event found expired between lookup and insert |
| `LadderRaces.StrandsNoneBeforeJoin` | services/gateway/src/subscribers/nlp_synthesis_worker.rs:121-156 | with expiry as one step no pending signal is left on an expired event until an insert puts one there |
| `LadderRaces.DeadJoinIffOvertaken` | services/gateway/src/subscribers/nlp_synthesis_worker.rs:121-156 | with expiry as one step a run links a signal to a dead event if and only if it has an insert overtaken by an expiry |
| `LadderRaces.NoSignalJoinsExpired` | services/gateway/src/subscribers/event_subscriber.rs:203-283 | so without one, nothing staged after an event expired is ever linked to it |
| `LadderRaces.UpdatesMakeExpiry` | services/gateway/src/subscribers/nlp_synthesis_worker.rs:125-156 | the two updates of an expiry with nothing in between are the one-step expiry |
| `LadderRaces.SplitExpiryLetsSignalsJoin` | services/gateway/src/subscribers/nlp_synthesis_worker.rs:126-153 | a five-step run in which an ingest between the two updates of an expiry joins the dead event |
| `LadderRaces.OvertakenIngestJoins` | services/gateway/src/subscribers/event_subscriber.rs:205-281 | a five-step run in which an ingest joins a dead event although every expiry is one step |
| `LadderWorker.Tables.LookUpCluster` | services/gateway/src/subscribers/event_subscriber.rs:201-217 | performs the lookup step |
| `LadderWorker.Tables.StageSignal` | services/gateway/src/subscribers/event_subscriber.rs:219-283 | performs the insert step from any lookup made earlier, and fails only when the event is gone or the id taken |
| `LadderWorker.Tables.HandleMessage` | services/gateway/src/subscribers/event_subscriber.rs:186-283 | performs both steps; with nothing in between it joins a dead event if and only if the latest match was left pending on one |
| `LadderWorker.Tables.DeactivateStale` | services/gateway/src/subscribers/nlp_synthesis_worker.rs:126-142 | performs the first update and returns the events it expired |
| `LadderWorker.Tables.RetireSignals` | services/gateway/src/subscribers/nlp_synthesis_worker.rs:144-153 | performs the second update on events expired earlier |
| `LadderWorker.Tables.ExpireStaleEvents` | services/gateway/src/subscribers/nlp_synthesis_worker.rs:125-156 | performs both updates; with nothing in between this is the one-step expiry, and the count is of the events expired |
| `LadderWorker.Tables.FetchClusterStats` | services/gateway/src/subscribers/nlp_synthesis_worker.rs:162-192 | one row of distinct counts per event with a pending signal |
| `LadderWorker.Tables.PromoteCluster` | services/gateway/src/subscribers/nlp_synthesis_worker.rs:200-269 | performs the promote step from any counts read earlier, and reports confirmed exactly on the transition, which takes three sources and two channels |
| `LadderWorker.Tables.PromoteFresh` | services/gateway/src/subscribers/nlp_synthesis_worker.rs:228-253 | from counts that still describe the signals, an active event ends on its evidence |
| `LadderWorker.Tables.PromoteAll` | services/gateway/src/subscribers/nlp_synthesis_worker.rs:109-116 | the loop leaves every active event of the read on its evidence, and its two counts are the numbers of events newly corroborating and newly confirmed |
| `LadderWorker.Tables.Tick` | services/gateway/src/subscribers/nlp_synthesis_worker.rs:98-119 | after an undisturbed tick every active event's tier equals the tier recomputed from all its signals, and the summary counts the events evaluated, expired, newly corroborating and newly confirmed |
| `Consensus.StatusClimbs` | services/gateway/src/reports/consensus.rs:14-47 | every transition climbs; verified is entered from unverified only, authoritative from verified only |
| `Personhood.InlineAgreesWithClassifier` | services/gateway/src/trust/personhood.rs:20-108 | the condition written into the vote query agrees with the classifier on everybody |
| `Personhood.ClassifyTells` | services/gateway/src/trust/personhood.rs:20-38 | the source names the one signal there is |
| `Decay.EffectiveIsBounded` | services/gateway/src/trust/decay.rs:21-46 | decay stays between floor and earned, and leaves whoever is at or below the floor |
| `Decay.EffectiveIsMonotone` | services/gateway/src/trust/decay.rs:32-45 | longer inactivity never raises the score and higher accuracy never lowers it |
| `Decay.DecayReachesFloor` | services/gateway/src/trust/decay.rs:17-46 | untouched within grace, exactly the floor from the horizon, stretched by one plus accuracy, on |
| `Decay.DecayIsLinear` | services/gateway/src/trust/decay.rs:36-45 | within that horizon the score is the straight line from earned to floor, rounded half away from zero |
| `Decay.AccuracyStretchesTime` | services/gateway/src/trust/decay.rs:37-41 | full accuracy slows decay to half speed |
| `Decay.AccuracyIsClamped` | services/gateway/src/trust/decay.rs:37-37 | accuracy outside the unit interval counts as its nearer end |
| `Decay.AccuracyIsShare` | services/gateway/src/trust/decay.rs:9-15 | the ratio times total is accurate, and zero without reports |
| `ReportRuns.TallyKeepsLedger` | services/gateway/src/reports/service.rs:254-289 | counting a new voter's vote keeps counters and ledger in step |
| `ReportRuns.LedgerBounds` | services/gateway/src/reports/service.rs:228-258 | a ledger of c confirms and d denies sums to between c - 11d and 11c - d |
| `ReportRuns.ReachableInv` | services/gateway/src/reports/service.rs:108-382 | every interleaving of reports, votes and decay writes keeps ledgers, statuses, reputation and standing consistent |
| `ReportRuns.VotesExplainReport` | services/gateway/src/reports/service.rs:228-317 | in every reachable state the score is seed plus signed magnitudes of distinct non-author votes, within its bounds, and each status has the votes it needs |
| `ReportRuns.StatusNeverFalls` | services/gateway/src/reports/consensus.rs:14-47 | along a run a report keeps its author and its status rank never falls |
| `ReportRuns.EverVerifiedIsHistory` | services/gateway/src/reports/service.rs:327-366 | the recorded history is exactly the reports verified in some state so far |
| `ReportRuns.ReputationIsConserved` | services/gateway/src/reports/service.rs:319-378 | for every user: total counts reports created, accurate those ever verified, score is ten times that, rejected those standing rejected, and accurate is at most total |
| `ReportRuns.VerifiedOnce` | services/gateway/src/reports/consensus.rs:37-46 | a report enters verified at most once |
| `ReportRuns.StandingIsBounded` | services/gateway/src/subscribers/trust_worker.rs:132-175 | under any interleaving with stale decay writes, effective is at most earned and the tier is by effective score: 5, 20 and 50 points |
| `ReportRuns.QueryCountsEstablished` | services/gateway/src/reports/service.rs:291-317 | the counting query counts exactly the distinct confirmers the classifier calls established |
| `ReportRuns.GateNeedsEstablished` | services/gateway/src/reports/consensus.rs:33-46 | with the gate on, a report turns verified only by a vote that leaves two established confirmers, and authoritative only with three |
| `ReportLaws.NewReport` | services/gateway/src/reports/service.rs:108-171 | a report starts pending, without votes, at one to four points by its author's tier |
| `ReportLaws.VoteIsAcceptedIff` | services/gateway/src/routes/reports.rs:301-362 | a vote is accepted exactly when it says confirm or deny, of a known report, by somebody else who has not voted on it |
| `ReportLaws.VoteLands` | services/gateway/src/reports/service.rs:222-289 | it appends to that ledger alone, weighing 1, 3, 6 or 10 by tier, one more when nearby except for newcomers |
| `ReportLaws.VoteTouchesOnly` | services/gateway/src/reports/service.rs:197-220 | a vote makes its voter's row if need be and touches nobody else but the author |
| `ReportLaws.StatusFollowsLedger` | services/gateway/src/reports/consensus.rs:14-47 | after every accepted vote the status is exactly where the ledger's counts and points put it |
| `ReportLaws.VerifiedIsNotOutnumbered` | services/gateway/src/reports/consensus.rs:22-32 | in every reachable state nothing verified is outnumbered by three or more denials, and nothing pending is at -5 |
| `ReportLaws.ReadTakes` | services/gateway/src/subscribers/trust_worker.rs:133-154 | a decay read takes exactly the users verified once, past the grace days, above the floor, with whole days |
| `ReportLaws.WriteLands` | services/gateway/src/subscribers/trust_worker.rs:155-173 | a decay write puts its user on the curve of what was read, and touches nobody else |
| `DecayRaces.ResetLastsIffNoStaleWrite` | services/gateway/src/subscribers/trust_worker.rs:132-173 | after a verification of u's report, until the next one or a decay read of u, effective equals earned if and only if no decay write used a read of u from before |
| `DecayRaces.StaleDecayUndoesReset` | services/gateway/src/subscribers/trust_worker.rs:149-173 | a run of fifteen requests in which that happens |
| `DecayRaces.CreditIsReset` | services/gateway/src/reports/service.rs:343-366 | a verification adds ten to the author's earned score and sets effective to it |
| `DecayRaces.OnlyCreditsAndWritesCount` | services/gateway/src/reports/service.rs:319-378 | nothing but a verification of their own report and a decay write of their own row moves anybody's scores |
| `ReportRuns.PassIsIdempotent` | services/gateway/src/trust/decay.rs:1-5 | a second pass at the same time changes nothing |
| `ReportService.Service.CreateReport` | services/gateway/src/reports/service.rs:108-171 | performs the create step on user and report rows |
| `ReportService.Service.CastVote` | services/gateway/src/routes/reports.rs:289-362 | performs the vote step with its refusals: bad vote, no report, own report, second vote |
| `ReportService.Service.Count` | services/gateway/src/reports/service.rs:176-382 | the statements of the vote transaction end in the specified tables |
| `ReportService.Service.Reward` | services/gateway/src/reports/service.rs:343-377 | the author's row on a status change |
| `ReportService.Service.Standing` | services/gateway/src/subscribers/trust_worker.rs:132-147 | whoever is read shows effective at most earned, the tier of the effective score, ten points per accurate report, and at most as many accurate as total reports |
| `ReportService.Service.DecayPass` | services/gateway/src/subscribers/trust_worker.rs:132-175 | an undisturbed pass puts exactly the selected users on the curve |
| `ReportService.Service.SelectRows` | services/gateway/src/subscribers/trust_worker.rs:133-147 | selects exactly the users verified once, past grace and above the floor |
| `ReportService.Service.WriteBack` | services/gateway/src/subscribers/trust_worker.rs:149-173 | performs one decay write from what the pass read |
| `Outbox.RowsOk` | services/gateway/src/subscribers/push_outbox_worker.rs:41-53 | in every reachable state a row is processing exactly when it has a holder and a lock time |
| `Outbox.HolderIsLastClaimer` | services/gateway/src/subscribers/push_outbox_worker.rs:41-53 | the holder of a row is the worker that claimed it last, with nothing in between |
| `Outbox.LastClaimerHolds` | services/gateway/src/subscribers/push_outbox_worker.rs:41-53 | conversely, the last claimer holds the row until it is claimed again or completed |
| `Outbox.CompletionIsFenced` | services/gateway/src/subscribers/push_outbox_worker.rs:91-111 | only the latest claimer's completion takes effect |
| `Outbox.OneCompletionPerClaim` | services/gateway/src/subscribers/push_outbox_worker.rs:91-111 | two effective completions have a claim between them |
| `Outbox.SettledRowsStay` | services/gateway/src/subscribers/push_outbox_worker.rs:41-46 | sent and dead rows never change again |
| `Outbox.AttemptsCountFailures` | services/gateway/src/subscribers/push_outbox_worker.rs:103-110 | attempts counts the failures of the run, and dead means exactly eight |
| `Outbox.WaitingIsBounded` | services/gateway/src/subscribers/push_outbox_worker.rs:105-107 | backoffs before death add up to 2^(attempts+1) - 2 seconds, at most 254 |
| `Outbox.ClaimTakesIffDue` | services/gateway/src/subscribers/push_outbox_worker.rs:42-48 | a claim takes a row exactly when due: from its enqueuing, 2^f seconds after its f-th failure, or more than 900 after its last claim |
| `Outbox.BatchIsTaken` | services/gateway/src/subscribers/push_outbox_worker.rs:42-48 | due rows are claimed together exactly up to fifty |
| `Outbox.RetryWaits` | services/gateway/src/subscribers/push_outbox_worker.rs:103-110 | after its f-th failure the next claim of a row comes at least 2^f seconds later |
| `Outbox.LeaseLasts` | services/gateway/src/subscribers/push_outbox_worker.rs:45-45 | two claims with no completion between are more than 900 seconds apart |
| `OutboxWorker.Deliveries.SelectBatch` | services/gateway/src/subscribers/push_outbox_worker.rs:42-48 | selects only claimable rows, at most a batch, and all of them when they fit |
| `OutboxWorker.Deliveries.ClaimBatch` | services/gateway/src/subscribers/push_outbox_worker.rs:41-53 | performs the claim step on what it selected |
| `OutboxWorker.Deliveries.RecordSent` | services/gateway/src/subscribers/push_outbox_worker.rs:91-95 | performs the sent step; it takes effect if and only if this worker made the last claim and nothing completed it since |
| `OutboxWorker.Deliveries.RecordFailed` | services/gateway/src/subscribers/push_outbox_worker.rs:97-112 | performs the failed step with the same fence; the row dies exactly at its eighth failure and before that waits 2^f seconds after its f-th |
| `Polyline.ComponentAdvances` | services/gateway/src/maps/stadia_adapter.rs:208-228 | a decoded component consumes at least one byte, none past the end, and ends at its terminator |
| `Polyline.CompleteComponentDecodes` | services/gateway/src/maps/stadia_adapter.rs:211-227 | conversely, every well-formed component of at most thirteen bytes decodes |
| `Polyline.ReadsBack` | services/gateway/src/maps/stadia_adapter.rs:208-228 | reading the chunks of a number gives the number back |
| `Polyline.DecodedIsEncodable` | services/gateway/src/maps/stadia_adapter.rs:235-243 | whatever decodes has deltas in [-2^62, 2^62) and positions in 64 bits |
| `Polyline.RoundTripIffEncodable` | services/gateway/src/maps/stadia_adapter.rs:207-245 | decoding undoes the standard encoding if and only if the positions are encodable |
| `Polyline.DecodeConsumesPairs` | services/gateway/src/maps/stadia_adapter.rs:235-244 | a successful decoding consumes every byte in complete latitude and longitude pairs, all bytes in range |
| `Polyline.ReadComponent` | services/gateway/src/maps/stadia_adapter.rs:208-228 | the component loop computes the specified component |
| `Polyline.ReadPosition` | services/gateway/src/maps/stadia_adapter.rs:236-241 | two components and two checked additions |
| `Polyline.DecodePolyline6` | services/gateway/src/maps/stadia_adapter.rs:207-245 | the loop computes the decoding, terminates on every input, and a success is encodable and in complete pairs |
| `Polyline.OrOfDisjointBitsIsSum` | services/gateway/src/maps/stadia_adapter.rs:218-218 | or-ing a multiple of 2^shift onto lower bits adds it |
| `Polyline.AccumulateIsSum` | services/gateway/src/maps/stadia_adapter.rs:209-227 | the decoder's or of a chunk, cut at 64 bits, is a sum in every state the loop reaches |
| `AcousticWeights.GroupSums` | services/gateway/src/subscribers/synthesis_worker.rs:460-464 | grouping by key keeps each key's sum and the total, and has exactly the keys that occur |
| `AcousticWeights.WeightsSumPerKey` | services/gateway/src/subscribers/synthesis_worker.rs:479-490 | a key's signal weights add up to its capped trust |
| `AcousticWeights.WeightsSumToMass` | services/gateway/src/subscribers/synthesis_worker.rs:468-490 | all weights add up to the total mass |
| `AcousticWeights.CapIsQuarterOfUncapped` | services/gateway/src/subscribers/synthesis_worker.rs:464-471 | a key keeps what it had, or a quarter of the uncapped total if that is less |
| `AcousticWeights.MassIsPositive` | services/gateway/src/subscribers/synthesis_worker.rs:472-472 | any survivor gives positive mass and positive weights |
| `AcousticWeights.ScoreIsConvex` | services/gateway/src/subscribers/synthesis_worker.rs:206-210 | the raw score lies within the confidences it combines |
| `AcousticWeights.QuarterOfMassIffUncapped` | services/gateway/src/subscribers/synthesis_worker.rs:464-472 | every key is within a quarter of the capped mass if and only if none was above a quarter before capping |
| `AcousticWeights.SurvivorsAreThoseInTime` | services/gateway/src/subscribers/synthesis_worker.rs:437-453 | exactly the signals within the cutoff survive, once each and in order |
| `AcousticWeights.TrustHalvesWithAge` | services/gateway/src/subscribers/synthesis_worker.rs:441-450 | a signal brings 0.4 trust within a minute, half of that within two, and nothing later |
| `AcousticWeights.AgingWeighsHalf` | services/gateway/src/subscribers/synthesis_worker.rs:479-490 | of one key's signals a fresh one weighs twice an aging one |
| `AcousticWeights.MissingVarianceIsFree` | services/gateway/src/subscribers/synthesis_worker.rs:488-488 | a reported variance counts; where none is reported nothing is discounted |
| `AcousticWeights.GroupByKey` | services/gateway/src/subscribers/synthesis_worker.rs:460-463 | the accumulation loop computes the grouping |
| `AcousticWeights.SumValues` | services/gateway/src/subscribers/synthesis_worker.rs:464-472 | summing a table in any order gives its sum |
| `AcousticWeights.Decay` | services/gateway/src/subscribers/synthesis_worker.rs:437-453 | the loop keeps the survivors with their decayed trust |
| `AcousticWeights.Spread` | services/gateway/src/subscribers/synthesis_worker.rs:474-490 | the loop computes weights, numerator and summed variance |
| `AcousticWeights.ComputeWeights` | services/gateway/src/subscribers/synthesis_worker.rs:432-493 | weights, mass, numerator and variance of a cluster, with positive mass whenever anything survives |
| `AcousticWeights.ClusterScoreIsConvex` | services/gateway/src/subscribers/synthesis_worker.rs:206-210 | a cluster's raw score lies within any bounds on its surviving confidences |
| `AcousticWeights.AdjustedScoreIsBounded` | services/gateway/src/subscribers/synthesis_worker.rs:206-212 | with confidences and variances in the unit interval the variance discount takes at most half and the score stays within one |
| `RateLimits.BurstBound` | services/gateway/src/routes/reports.rs:37-50 | any stretch shorter than one window admits at most 2 * max - 1 checks of a key |
| `RateLimits.BurstBoundIsReached` | services/gateway/src/routes/reports.rs:37-50 | for every maximum some run reaches that bound |
| `RateLimits.SlidesIffMaxIsOne` | services/gateway/src/routes/reports.rs:25-50 | every stretch shorter than a window admits at most the maximum, in every run, if and only if the maximum is one |
| `RateLimits.ZeroStillAdmits` | services/gateway/src/routes/reports.rs:39-43 | with a maximum of zero a key is admitted once its first window is over |
| `RateLimits.RunBound` | services/gateway/src/routes/reports.rs:37-50 | a run of duration T from a key's first check admits at most max * (T / window + 1) |
| `RateLimits.RefusedMeansFull` | services/gateway/src/routes/reports.rs:44-49 | a refused key was admitted the full maximum less than one window ago |
| `RateLimits.KeysAreIndependent` | services/gateway/src/routes/reports.rs:39-43 | a key's entry and admissions depend on its own checks alone |
| `RateLimits.Limiter.Check` | services/gateway/src/routes/reports.rs:37-50 | performs one check on the shared table and answers as specified |
| `AudioWindows.CutKeepsStream` | apps/pwa/public/audio-processor.js:16-28 | the windows followed by the rest are the stream, and every window has 15360 samples |
| `AudioWindows.CutIsUnique` | apps/pwa/public/audio-processor.js:16-28 | no other cut into full windows and a shorter rest exists |
| `AudioWindows.WindowAt` | apps/pwa/public/audio-processor.js:16-28 | window i holds samples 15360 i up to 15360 (i + 1) |
| `AudioWindows.Processor.Process` | apps/pwa/public/audio-processor.js:11-31 | after any call the posted arrays are the windows of everything heard, each its own array distinct from the buffer, and the buffer prefix is the rest |
| `AudioWindows.Processor.Fill` | apps/pwa/public/audio-processor.js:19-20 | copies the samples behind the filled prefix |
| `AudioWindows.Processor.Post` | apps/pwa/public/audio-processor.js:23-27 | posts a fresh copy of the buffer and starts over |
| `AudioWindows.Stream` | apps/pwa/public/audio-processor.js:4-31 | for every split of a stream into blocks the output is that of the whole stream |
| `ChatMerge.OrderedIsUnique` | apps/pwa/src/store/chatSlice.ts:37-42 | an ordered list is determined by its messages |
| `ChatMerge.SortIsCorrect` | apps/pwa/src/store/chatSlice.ts:39-41 | sorting messages with distinct ids orders them and keeps each once |
| `ChatMerge.AnySortAgrees` | apps/pwa/src/store/chatSlice.ts:40-40 | whatever algorithm sort uses, the result is this one |
| `ChatMerge.MergeIsFirstArrivals` | apps/pwa/src/store/chatSlice.ts:37-42 | merging gives an ordered list with unique ids of exactly the first arrival under each id |
| `ChatMerge.MergeDependsOnSet` | apps/pwa/src/store/chatSlice.ts:37-69 | if equal ids carry equal messages, order and repetition do not matter |
| `ChatMerge.SetDecidesIffConsistent` | apps/pwa/src/store/chatSlice.ts:38-38 | the list depends on the set of messages alone if and only if equal ids carry equal messages |
| `ChatMerge.ListIsMerge` | apps/pwa/src/store/chatSlice.ts:53-69 | in every run of actions a channel's list is the merge of what it received since the last reset |
| `ChatMerge.ListsStayOrdered` | apps/pwa/src/store/chatSlice.ts:37-69 | any mix of actions leaves lists ordered by time and id, no id twice, none lost |
| `ChatMerge.ListDependsOnArrivals` | apps/pwa/src/store/chatSlice.ts:53-69 | runs whose arrivals are the same set show the same list |
| `ChatMerge.UnreadAreShown` | apps/pwa/src/store/chatSlice.ts:53-84 | a channel never counts more unread messages than it shows |
| `ChatMerge.ListsReadOldestFirst` | apps/pwa/src/store/chatSlice.ts:40-40 | every channel reads oldest first, and alphabetically by id where times are equal |
| `ChatMerge.ActiveIsLastSet` | apps/pwa/src/store/chatSlice.ts:48-87 | the active channel is the one set last |
| `ChatMerge.UnreadIsCounted` | apps/pwa/src/store/chatSlice.ts:57-79 | the unread count is exactly the number of live messages new to the channel while it was not active and not read since |
| `ChatMerge.ChatSlice.ChannelMessageReceived` | apps/pwa/src/store/chatSlice.ts:53-63 | performs the live action: merge, and one unread if new and not active |
| `ChatMerge.ChatSlice.ChannelHistoryLoaded` | apps/pwa/src/store/chatSlice.ts:64-69 | performs the history action, loop included |
| `ChatMerge.ChatSlice.ActiveChannelChanged` | apps/pwa/src/store/chatSlice.ts:76-79 | performs the switch, clearing the unread count of a named channel |

## Left out

- HTTP, authentication, payload binding, web sockets, SQL, Redis and H3: tables, keys and row locks stand for the database.
- Cryptography: wrap and envelope contents are opaque.
- `list_circles`, `get_circle` and alert settings of a member: reads and columns nothing else depends on.
- `on_confirm` and other broadcasts: fire-and-forget messages with no effect on the tables.
- Issuing and revoking vouches: vouches are an arbitrary relation that may change at any step.
- Retention of push deliveries: removal of old outbox rows is a step of the ladder model (`Purge`) but not of the outbox model.
- The 250 ms limit on the rate key and other unavailability errors: they only refuse requests.
- The rest of `process_cluster` (contributor, fingerprint and severity gates, event upsert) and `count_distinct_fingerprints`: thresholds on the numbers that are modelled.
- Floating-point rounding, and the conversion of micro-degrees to `f64` degrees: reals and integers are used.
- CircleRuns.ReachableInv: its location-row part is for atomic publication; the exact conditions without it are in `CircleRaces`.
- CircleRuns.PublicationAfterRemoval: for atomic publication; `CircleRaces.CutOffIffCheckedAfter` is the exact statement without it.
- CircleRuns.RemovalCutsOff: its publication half is for atomic publication, its wrap half holds with the race too by `CircleRaces.RaceTouchesOnlyBlobs`.
- CircleStore.Store.PushEnvelope: checks and inserts in one step; the two steps are moves of `CircleRaces`.
- CircleStore.Store.ListEnvelopes: returns the rows as a table, without the newest-first order of the response, and reads membership and rows in one step.
- OutboxWorker.Deliveries.SelectBatch: may select any claimable rows, not those available longest; no stated property depends on the order.
- LadderWorker.Tables.HandleMessage: states the effect of an ingest nothing interrupts; its two steps are methods of their own, and interleavings are covered by `LadderRaces`.
- LadderWorker.Tables.ExpireStaleEvents: states the effect of an expiry nothing interrupts; its two updates are methods of their own, and interleavings are covered by `LadderRaces`.
- LadderWorker.Tables.Tick: states the effect of a tick nothing interrupts; interleaved ticks are covered by the lemmas over runs.
- ReportService.Service.DecayPass: states the effect of a pass nothing interrupts; interleaved writes are covered by the lemmas over runs.
- Thread interleaving inside `RateLimiter::check`: a check holds its map entry, so it is one step; concurrent checks whose clock readings arrive out of order are outside the bounds.
- `channels` and `synced` of the chat slice: plain assignments nothing else reads.
- Accountability metrics, retention snapshots, map adapters other than the polyline decoder, the chat push worker, direct messages, the Python signal service, and the client's pages, vault and signer.
