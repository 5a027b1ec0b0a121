# SkillHunt: verified models of its stateful protocols

SkillHunt matches recruiters with freelancers by the gear those freelancers have had validated. This project
models, in Dafny, the parts of it that keep state across several steps and several services, and proves what
those parts keep over whole runs.

| part | modules |
|---|---|
| ranking of candidates | `Scoring`, `FreelancerRepo`, `Ranking`, `Sorting`, `Entities` |
| the event stream between the backend and the matching service | `EventBus`, `EventServices`, `ConsumerProgress` |
| the `/match` cache against live data | `CacheKey`, `CacheCoherence`, `MatchService`, `GearCoherence` |
| gear, loadout, certifications, gamification | `GearLocker`, `GearMatching`, `Certifications`, `OverlappingUploads`, `Gamification` |
| refresh tokens, second factor, login | `TokenRegistry`, `TwoFactor`, `Sessions`, `OverlappingRefreshes`, `OverlappingBackups` |
| one browsing context against the server | `SharedRefresh`, `RequestOutcomes`, `RefreshTraffic`, `SharedRotation` |
| conversations | `Chat`, `Text` |

How the models are built:

- Code that changes things step by step is a class whose methods are proved against functions of the old state;
  the same functions are the steps of a state machine, and theorems are about `Run` over every sequence of
  events. An event that is not possible in a state changes nothing.
- Clocks, generated ids, passwords, TOTP answers, network and Redis outcomes are inputs of each event. A Redis
  command has three outcomes (`Reply`): it ran and was answered, it did not run, or it ran and the answer was lost.
- The cache, the browser context, global revocations, overlapping refreshes, pins, uploads and verifications are interleaved
  at the level of single Redis, database or network accesses. The other services are run handler by handler.
- Scores and distances are exact reals; the two `round` calls are half-to-even rounding, written out.

What the proofs turned up, where the code does less than it is said to do:

- `set_cached` reads the version again, after the ranking. `RaceServesStaleResults` is a run without any fault that
  ends in a stale answer; `CoherentIffNotOvertaken` says exactly which entries are stale. Staleness stays
  within the TTL plus the time from read to write (`BoundedStaleness`). This is the debt of docs/BACKLOG.md:110.
- matching-service/app/services/event_consumer.py:80 says an entry whose handling failed is handled again. It is
  not: the group is read from `>` only, so such an entry, and one whose acknowledgement did not run, stays pending for
  good (`StuckIffNotAcknowledged`), and so do the entries of a batch that a crash or an unanswered read has made the
  consumer pass over (`StuckIffLeftBehind`).
- backend-core/src/auth/two-factor.service.ts:191 relies on the counter's TTL. If, at the failure that opens a window,
  INCR runs unanswered or EXPIRE does not run, the counter has none, and five failures then lock the account for good,
  valid codes included (`DeadlineIffOpeningExpired`, `LostExpireLocksForGood`, `LockIsTemporaryIffDeadline`).
- Overlapping verifications can all accept one backup code, and can store a spent code again (`SameCodeIsAcceptedAgain`,
  `SpentCodeComesBack`, `SingleUseIffNoOverlap`).
- Overlapping uploads can put one brevet on several accounts, as many as overlap (`UnsharedIffNoOverlap`).
- Overlapping pins can put more than four items in a loadout: three plus the number of overlapping calls, no more
  and no less (`OverlappingPinsBound`, `OverlappingPinsReachTheBound`, `FourIffNoOverlap`).
- Overlapping refresh calls can all be accepted with one token, as many times as they overlap (`OverlapIsReached`).
- A login between the commands of a global revocation leaves a valid token that no later global revocation finds
  (`IndexCoversLiveTokensIff`, `SurvivorsEscapeRevocation`).
- frontend-web/src/api/auth-interceptors.ts:89 takes the catch clause for a dead refresh token. It also catches any
  failure of the replay itself: after a successful refresh, a replay answered 500 purges a live session
  (`RefusedReplayPurges`). With a calm server the session is lost exactly by a refused replay (`CookieStaysLive`).
- A login whose registry write ran unanswered is a failed login with a live token (`LostAnswerLeavesALiveToken`), so
  live tokens are bounded by completed logins plus such logins, not by completed logins alone.
- If a certification's row cannot be saved after its document was deleted, it stays pending without a document
  (`FaultBreaksAgreement`); if it cannot be inserted after the document was put, the document stays for good
  (`LostInsertOrphansDocument`, `OrphansStay`). These are the only ways the two stores come apart (`StoresAgreeIff`),
  and no fault ever keeps the document of a reviewed one (`ReviewedDocumentsAreGone`).

## Model

| member | source | states |
|---|---|---|
| CacheCoherence.BoundedStaleness | matching-service/app/services/match_cache.py:29-51 | in every run, with races, lost publishes, failed handling and Redis faults, an answer ranks the database as it was at an instant no earlier than the answer minus the TTL minus the entry's read-to-write time, or after the request arrived if it was computed |
| CacheCoherence.RedisDownAnswersFresh | matching-service/app/services/match_cache.py:31-40 | a request whose own version or entry read fails is computed, and ranks the database as it was between its arrival and its answer, whatever Redis does for the rest of the run |
| CacheCoherence.FailedReadsNeverHit | matching-service/app/services/match_cache.py:38-40 | in any run, a request whose version reads or whose entry reads fail is not served from the cache |
| CacheCoherence.LosslessRunIsBalanced | matching-service/app/services/event_consumer.py:60-86 | in a run that loses no review and in which only reviews change answers (other writes are free), reviews saved = version + reviews on the way at every step, and no answer differs between two states with the same reviews |
| CacheCoherence.CoherentIffNotOvertaken | matching-service/app/services/match_cache.py:43-51 | with no review on its way, an entry at the current version was ranked with no review missing if and only if its version did not overtake the reviews in flight at its candidate read; and if it did not, it is the current ranking |
| CacheCoherence.FreshOrOnTheWay | matching-service/app/routers/matching.py:18-46 | the inductive form: an entry that was not overtaken is the current ranking, or a review is on its way that will hide it |
| CacheCoherence.RaceServesStaleResults | docs/BACKLOG.md:110 | for every review that changes the answer to a request, a fault-free run that serves the old answer after the bump, under the new version |
| CacheKey.CacheKeyIsInjective | matching-service/app/services/match_cache.py:21-26 | two pairs of version and digest never share a key, so a bump hides every older entry |
| CacheCoherence.ApartDigestExists | matching-service/app/services/match_cache.py:24-26 | the one assumption on the digest, that no two requests of the run share one, can be met for any requests |
| MatchService.MatchHandler.GetCached | matching-service/app/services/match_cache.py:29-40 | the entry under the current version; None on a miss and on a fault at either command |
| MatchService.MatchHandler.SetCached | matching-service/app/services/match_cache.py:43-51 | stores under the version read now, with the TTL; a fault at either command is silent |
| MatchService.MatchHandler.Match | matching-service/app/routers/matching.py:18-46 | a hit comes back untouched; otherwise the answer is the reference ranking of the tables, whatever row order the database chose, and it is stored unless Redis fails |
| MatchService.StoredIsFound | matching-service/app/services/match_cache.py:43-51 | what was stored is what the same request finds, until the TTL or a bump, and other requests find what they did |
| MatchService.HandlerIsItsSteps | matching-service/app/routers/matching.py:18-46 | the six interleavable steps of a request, taken in a row, do what the handler's contract says |
| MatchService.ServedRankingIsCurrent | matching-service/app/routers/matching.py:18-46 | coherence for the ranking itself: in a lossless run with nothing on its way, a hit that was not overtaken is the ranking of the tables as they are |
| GearCoherence.RunIsTranslated | backend-core/src/gear/gear.service.ts:55-187 | the gear table, the publishes as separate steps, the bus, the cache and the requests are one run, which is a run of the cache machine on that table |
| GearCoherence.LosslessTranslated | backend-core/src/gear/gear.service.ts:55-187 | if every saved review is published and the bus loses nothing, that run is lossless: declarations, pins, unpins and refused operations change no answer |
| GearCoherence.ServedRankingIsLive | backend-core/src/gear/gear.service.ts:161-187 | so in any such interleaving, once every review is counted, a hit that was not overtaken is the ranking of the gear table as it now is |
| GearCoherence.EveryReviewCanBeCounted | backend-core/src/gear/gear.service.ts:177-184 | from any lossless run, publishing and consuming bring every saved review into the version and leave the table alone, so that coherence is always within reach |
| GearCoherence.PublishesWhatTheServiceDoes | backend-core/src/gear/gear.service.ts:180-184 | what the combined run publishes for a saved review is what the service appends |
| Ranking.RankCandidates | matching-service/app/routers/matching.py:29-46 | the loop, the filter, the rounding and the sort compute the stable sort of the scored candidates |
| Ranking.HandlerComputesRanked | matching-service/app/routers/matching.py:29-46 | for every legal answer of the SQL statement the handler's list equals the reference ranking read from the tables |
| Ranking.RankedIsSortedSelection | matching-service/app/routers/matching.py:31-44 | the list is a sorted permutation of the positive-score candidates in radius, with every score in [0, 1] |
| Ranking.ValidationNeverCostsAPlace | matching-service/app/routers/matching.py:31-44 | validating one pending item never lowers its owner's rounded score and never puts more results strictly ahead of them |
| Ranking.NearerComesFirst | matching-service/app/routers/matching.py:31-44 | of two freelancers with the same validated items the farther one never has the better score, nor the smaller distance at the same score, and is in the answer only if the nearer one is |
| FreelancerRepo.GetCandidates | matching-service/app/services/freelancer_repo.py:48-62 | the dictionary loop computes the grouping of the rows |
| FreelancerRepo.GroupedGroups | matching-service/app/services/freelancer_repo.py:48-62 | in any row order: one profile for each freelancer with a row and for no other, with exactly their non-NULL categories |
| FreelancerRepo.GroupingRefinesCandidates | matching-service/app/services/freelancer_repo.py:33-62 | grouping the outer join gives, in id order, the profile of each freelancer in radius as read directly from the gear table |
| FreelancerRepo.InRadiusExactly | matching-service/app/services/freelancer_repo.py:20-43 | who is in radius: the freelancers with a position within 1000 times the radius of the point (longitude second in the request), each with its distance |
| Entities.ValidatingAddsCategory | matching-service/app/services/freelancer_repo.py:35-38 | validating a row adds its category to its owner's items and changes nobody else's |
| Scoring.ScoreSkills | matching-service/app/services/scoring.py:27-36 | the accumulation loop computes the share of required skills some category covers |
| Scoring.CompositeScoreInUnit | matching-service/app/models/schemas.py:41-44 | no profile makes the response schema refuse a score, rounded or not |
| Scoring.MoreGearNeverScoresLess | matching-service/app/services/scoring.py:27-58 | one more item of any category at any place never lowers the composite or the rounded score |
| Scoring.ScoreIgnoresGearOrder | matching-service/app/services/scoring.py:27-58 | the order of a freelancer's rows does not matter to the score |
| Scoring.RoundScoreIsMonotone | matching-service/app/routers/matching.py:38-39 | rounding to four digits, half to even, keeps the order and fixes 0 and 1 |
| Scoring.DistanceCostsEvenly | matching-service/app/services/scoring.py:44-50 | the location score is 1 at no distance, 0 from the radius on, and equal steps in between cost equally |
| Scoring.NearerNeverScoresLess | matching-service/app/services/scoring.py:44-58 | with the same items the nearer freelancer never scores less, rounded or not, and scores more inside the radius |
| Scoring.OneMoreItemIsWorth | matching-service/app/services/scoring.py:27-58 | one more item is worth half a point shared among the required skills for each one it newly covers, and 3/50 if it is among the first five |
| Scoring.FullScore | matching-service/app/services/scoring.py:53-58 | every required skill, five items and no distance score exactly 1 |
| Scoring.NoGearScoresByDistance | matching-service/app/services/scoring.py:53-58 | without gear a request that names a skill scores a fifth of the nearness |
| Scoring.CaseIsIgnored | matching-service/app/services/scoring.py:34 | skills that differ in ASCII capitals only are the same skill |
| Scoring.RoundingIsNearest | matching-service/app/routers/matching.py:38-39 | rounding goes to the nearest integer, and from the middle to the even one |
| Scoring.RoundScoreIsNearest | matching-service/app/routers/matching.py:38 | a rounded score has four digits and is at most half of the last one away |
| Scoring.RoundDistanceIsNearest | matching-service/app/routers/matching.py:39 | a rounded distance has two digits, is at most half of the last one away, and keeps the order |
| Sorting.SortIsStableSort | matching-service/app/routers/matching.py:44 | the sort is ordered, keeps the elements, and keeps ties in order |
| Sorting.StableSortIsUnique | matching-service/app/routers/matching.py:44 | any other ordered, tie-preserving arrangement is the same list, so nothing depends on the sorting algorithm |
| EventBus.PublishedTypeIsRead | backend-core/src/common/events/event-publisher.service.ts:26-30 | the consumer reads back the published type if and only if the last payload pair with the key "type", if there is one, repeats it |
| EventBus.PublishedFieldIsRead | backend-core/src/common/events/event-publisher.service.ts:26-32 | the consumer reads back every key: the last value the payload has for it, or the type |
| EventBus.StreamConservation | matching-service/app/services/event_consumer.py:60-86 | over every run with faults and crashes: each entry is in exactly one of undelivered, pending, acknowledged; none is handled twice; acknowledged <= version increase <= delivered <= published, counting invalidating entries |
| EventBus.StuckIffLeftBehind | matching-service/app/services/event_consumer.py:69-71 | a delivered entry is pending in every continuation if and only if it is pending and the consumer has moved past it |
| EventBus.StuckIffNotAcknowledged | matching-service/app/services/event_consumer.py:76-81 | after its turn an entry is pending for good if and only if it is invalidating and its handling raised, or its acknowledgement did not run |
| EventBus.LosslessStepBalances | matching-service/app/services/event_consumer.py:18-27 | without loss, each published invalidating entry is counted in the version or in flight |
| EventServices.EventPublisherService.Publish | backend-core/src/common/events/event-publisher.service.ts:26-36 | the field loop and the append are one step of the bus; a fault costs the event and nothing else |
| EventServices.EventConsumer.ProcessEvent | matching-service/app/services/event_consumer.py:18-27 | bumps the version for an invalidating type and raises only if that command did |
| EventServices.EventConsumer.HandleEntry | matching-service/app/services/event_consumer.py:77-81 | handle, then acknowledge unless handling raised |
| EventServices.EventConsumer.HandleBatch | matching-service/app/services/event_consumer.py:75-81 | a batch is the run of its entries' steps, in order |
| EventServices.EventConsumer.ConsumeTurn | matching-service/app/services/event_consumer.py:64-86 | one turn of the loop is one read of at most ten new entries and that run |
| ConsumerProgress.AnsweredTurnDelivers | matching-service/app/services/event_consumer.py:69-79 | a turn with every command answered delivers the ten oldest undelivered entries, or all if fewer, counts each invalidating one and acknowledges all, and changes nothing else |
| ConsumerProgress.EnoughTurnsCatchUp | matching-service/app/services/event_consumer.py:64-86 | enough such turns leave nothing undelivered and nothing in flight, with the version grown by exactly the invalidating entries that were waiting |
| ConsumerProgress.CanDrain | matching-service/app/services/event_consumer.py:64-86 | from any state the consumer can count everything in flight without losing any |
| GearLocker.GearService.AddGearToLocker | backend-core/src/gear/gear.service.ts:55-71 | a freelancer's new row is pending and unpinned; anybody else is refused |
| GearLocker.GearService.SetLoadout | backend-core/src/gear/gear.service.ts:135-158 | pins and unpins, with the refusals in the source's order |
| GearLocker.GearService.ReviewGear | backend-core/src/gear/gear.service.ts:161-187 | decides a pending row, unpins a rejected one, publishes once the row is saved and only then |
| GearLocker.ReviewEventInvalidates | backend-core/src/gear/gear.service.ts:180-184 | every saved review is announced by an event that the cache consumer acts on |
| GearLocker.ReviewEventSaysWhat | backend-core/src/gear/gear.service.ts:180-184 | the event names the decision, the item and its owner |
| GearLocker.SavedReviewIsAnnounced | backend-core/src/gear/gear.service.ts:177-186 | a saved review puts one invalidating event in flight unless the append did not run; a refused one leaves the bus alone |
| GearLocker.DeclarationAdds | backend-core/src/gear/gear.service.ts:55-71 | a declaration adds one pending, unpinned row of that freelancer and nothing else |
| GearLocker.ReviewDecides | backend-core/src/gear/gear.service.ts:161-177 | a review gives a pending row the decision and unpins a rejected one; it is refused exactly for an unknown id or a decided row; no other row changes |
| GearLocker.LoadoutDoes | backend-core/src/gear/gear.service.ts:135-158 | unpinning one's own item always works and unpins it; pinning works and pins exactly for a validated item that is pinned already or finds fewer than four pinned |
| GearLocker.UnpinUndoesPin | backend-core/src/gear/gear.service.ts:135-158 | unpinning after a pin restores the table |
| GearLocker.RunIsSound | backend-core/src/gear/gear.service.ts:135-187 | in every run pinned implies validated and no freelancer has more than four pinned items |
| GearLocker.RunSettles | backend-core/src/gear/gear.service.ts:161-177 | no row is dropped or changes owner or category, and a decided status stays |
| GearLocker.StatusChangesAtMostOnce | backend-core/src/gear/gear.service.ts:166-170 | over three moments of a run, a status that changed between the first two does not change again |
| GearLocker.OverlappingPinsBound | backend-core/src/gear/gear.service.ts:135-158 | with at most K pin calls between count and save, at most 3 + K items are pinned, all validated |
| GearLocker.OverlappingPinsReachTheBound | backend-core/src/gear/gear.service.ts:146-157 | for every K, from any locker with three pinned and K more validated items, K overlapping pins end with 3 + K |
| GearLocker.FourIffNoOverlap | backend-core/src/gear/gear.service.ts:135-158 | at most four are pinned in every run if and only if pins of one freelancer never overlap |
| GearMatching.NeutralRunKeepsRanking | backend-core/src/gear/gear.service.ts:55-187 | any run of declaring, pinning, unpinning and rejecting leaves the answer to every request as it was |
| GearMatching.ValidationIsMatched | backend-core/src/gear/gear.service.ts:161-177 | and a saved validation adds the item's category to what its owner, and nobody else, is matched by |
| Certifications.StorageKeyIsInjective | backend-core/src/certifications/certification.service.ts:91-92 | different certifications never share a storage key |
| Certifications.CertificationService.UploadCertification | backend-core/src/certifications/certification.service.ts:55-111 | the refusals in the source's order, then the object, then the row, with a fault possible at each write |
| Certifications.CertificationService.ReviewCertification | backend-core/src/certifications/certification.service.ts:154-182 | only a pending row is decided; the object is deleted before the row is saved, with a fault possible at each write |
| Certifications.UploadAcceptedIff | backend-core/src/certifications/certification.service.ts:60-89 | an upload is accepted exactly with a readable %PDF file within the limit for a brevet free elsewhere, and refused as a conflict only after the file checks |
| Certifications.UploadedDocumentIsServed | backend-core/src/certifications/certification.service.ts:89-148 | whatever follows but its own review, with whatever faults, the owner and non-freelancers get the key under which the rewritten file of this very upload is stored |
| Certifications.ReviewRecords | backend-core/src/certifications/certification.service.ts:154-182 | an answered review records the decision and its time, keeps or renews the validity, purges the document and changes no other row; a decided row is refused |
| Certifications.ReviewedDocumentsAreGone | backend-core/src/certifications/certification.service.ts:154-182 | in every run, faults included: a key is present exactly when the row is pending, unreviewed and unpurged; no brevet is shared by two accounts; no document of a reviewed certification is stored |
| OverlappingUploads.HoldersAreBounded | backend-core/src/certifications/certification.service.ts:75-109 | with the duplicate search and the insert as separate steps, a brevet is pending or validated on at most as many accounts as its uploads overlap |
| OverlappingUploads.OverlappingUploadsShareABrevet | backend-core/src/certifications/certification.service.ts:75-109 | for every K, K overlapping uploads of one brevet put it on K accounts |
| OverlappingUploads.UnsharedIffNoOverlap | backend-core/src/certifications/certification.service.ts:75-109 | no brevet is shared in any run if and only if uploads of one brevet never overlap |
| Certifications.StoresAgreeIff | backend-core/src/certifications/certification.service.ts:85-111 | over every run, the stored keys are at every instant exactly those of the pending certifications if and only if no step wrote one store without the other |
| Certifications.StepKeepsAgreementIff | backend-core/src/certifications/certification.service.ts:97-109 | a step breaks agreement exactly if it is an accepted upload put and not inserted, or a decision deleted and not saved |
| Certifications.FaultFreeRunsAgree | backend-core/src/certifications/certification.service.ts:55-182 | in particular fault-free runs always agree |
| Certifications.LostInsertOrphansDocument | backend-core/src/certifications/certification.service.ts:95-109 | after any run, an accepted upload that is put and not inserted leaves a document that no row names |
| Certifications.OrphansStay | backend-core/src/certifications/certification.service.ts:174-178 | and no later operation ever removes it |
| Certifications.DocumentWhilePending | backend-core/src/certifications/certification.service.ts:134-148 | while the stores agree a caller gets a document if and only if it is pending and the caller is its owner or no freelancer |
| Certifications.FaultBreaksAgreement | backend-core/src/certifications/certification.service.ts:174-180 | a run in which the lost row write leaves a pending certification without its document |
| Gamification.LevelIsUnique | backend-core/src/gamification/gamification.service.ts:75-76 | for every XP exactly one level has threshold <= xp < next threshold, and the two searches return it and that next threshold |
| Gamification.LevelIsMonotone | backend-core/src/gamification/gamification.service.ts:18-25 | more XP never means a lower level |
| Gamification.LevelTable | backend-core/src/gamification/gamification.service.ts:18-25 | the level and the next threshold for every XP, written out |
| Gamification.BadgesOf | backend-core/src/gamification/gamification.service.ts:42-52 | which badges a user has, from the validated and pinned rows |
| Gamification.ValidationEarns | backend-core/src/gamification/gamification.service.ts:68-73 | a validated item is worth 50 points, and 30 more if its category is new to its owner |
| Gamification.CertificationEarns | backend-core/src/gamification/gamification.service.ts:68-73 | a validated certification is worth 80 points, and a DGAC one the pilot badge |
| Gamification.NothingEarnsNothing | backend-core/src/gamification/gamification.service.ts:68-73 | with nothing validated there is no XP |
| Gamification.ProgressIsMonotone | backend-core/src/gamification/gamification.service.ts:68-119 | over any run of gear and certification operations, faults included, XP, level and every badge except the loadout one never go down |
| Gamification.LoadoutCountsAgree | backend-core/src/gamification/gamification.service.ts:107-119 | after any run the derived `loadoutCount` equals the count the pin guard uses, and the badge means no slot is left |
| TokenRegistry.TokenStore.SaveToken | backend-core/src/auth/token-store.service.ts:22-44 | the key, the index and its expiry change together or not at all; an unanswered transaction raises |
| TokenRegistry.TokenStore.CheckToken | backend-core/src/auth/token-store.service.ts:46-54 | true exactly for an unexpired key of that user, and false on any fault |
| TokenRegistry.TokenStore.RevokeToken | backend-core/src/auth/token-store.service.ts:56-67 | deletes the key and raises on a fault |
| TokenRegistry.TokenStore.RevokeAll | backend-core/src/auth/token-store.service.ts:73-79 | SMEMBERS, DEL unless there is nothing to delete, DEL of the index; the first command that raises is the last |
| TokenRegistry.TokenLivesItsTtl | backend-core/src/auth/token-store.service.ts:22-67 | over every run a saved token is valid for its user, and for nobody else, exactly until its TTL has passed, unless it was revoked by itself or in a sweep that had read it |
| TokenRegistry.IndexLapses | backend-core/src/auth/token-store.service.ts:30-34 | a whole TTL after a user's last save, the index shows nothing for that user |
| TokenRegistry.SaveKeepsCoverIff | backend-core/src/auth/token-store.service.ts:26-34 | a save keeps the index covering if and only if it does not shorten the index below another live token of the user |
| TokenRegistry.IndexCoversLiveTokensIff | backend-core/src/auth/token-store.service.ts:22-79 | with the one TTL of `issueTokens`, over every run in which the three commands of global revocations interleave with everything: at every instant each live token is in its user's live index, which lasts at least as long, if and only if no revocation drops the index of a live token saved since it read |
| TokenRegistry.UndisturbedRunsStayCovered | backend-core/src/auth/token-store.service.ts:22-79 | in particular if no save of the user falls between SMEMBERS and the last DEL |
| TokenRegistry.InterleavedSaveLosesCover | backend-core/src/auth/token-store.service.ts:73-79 | a run in which a login in that gap ends with a valid token and no index |
| TokenRegistry.SurvivorsEscapeRevocation | backend-core/src/auth/token-store.service.ts:73-79 | a token that lost its index that way stays valid until it expires or is revoked by itself: no later global revocation reaches it |
| TokenRegistry.RevokeAllOrRaises | backend-core/src/auth/token-store.service.ts:73-79 | with faults: a global revocation that returns has left no valid token, one that raises has left all or none |
| TokenRegistry.RevokeAllIsExact | backend-core/src/auth/token-store.service.ts:73-79 | after any run in which the index stayed covering, an uninterrupted global revocation leaves no valid token of its user and touches nobody else's |
| TokenRegistry.RevokeAllLeavesInterleavedSaves | backend-core/src/auth/token-store.service.ts:73-79 | the tokens saved between SMEMBERS and the deletions are exactly the ones that survive, and a second revocation changes nothing; none survives if and only if there was no such save |
| TwoFactor.TwoFactorService.VerifyCode | backend-core/src/auth/two-factor.service.ts:95-122 | lock check, TOTP, backup codes in order, counter, with each Redis outcome; no other user is touched |
| TwoFactor.TwoFactorService.EnrollUser | backend-core/src/auth/two-factor.service.ts:51-65 | stores a new secret unless 2FA is on |
| TwoFactor.TwoFactorService.ConfirmUser | backend-core/src/auth/two-factor.service.ts:68-88 | a valid TOTP code turns 2FA on and starts a generation of backup codes |
| TwoFactor.TwoFactorService.DisableUser | backend-core/src/auth/two-factor.service.ts:125-137 | erases everything exactly when verification accepts |
| TwoFactor.TwoFactorService.RegenerateBackupCodes | backend-core/src/auth/two-factor.service.ts:140-153 | replaces the codes exactly when verification accepts |
| TwoFactor.AcceptedIff | backend-core/src/auth/two-factor.service.ts:95-122 | a code is accepted exactly on an enabled account that is not locked, with the lock check answered, if it is a valid TOTP code or a stored backup code |
| TwoFactor.RefusedBecause | backend-core/src/auth/two-factor.service.ts:95-122 | the four ways a code is refused, told apart; only a wrong code changes anything, and only the counter |
| TwoFactor.AcceptanceClears | backend-core/src/auth/two-factor.service.ts:103-117 | an accepted code clears the counter if DEL ran and leaves it alone if not; a backup code spends itself once |
| TwoFactor.SuccessStartsAfresh | backend-core/src/auth/two-factor.service.ts:103-117 | after that, whatever follows, fewer than five failures do not lock the account |
| TwoFactor.LockedIffFiveTries | backend-core/src/auth/two-factor.service.ts:157-185 | from a cleared counter and within 300 seconds, failing tries lock the account if and only if there were five |
| TwoFactor.LockLastsToItsDeadline | backend-core/src/auth/two-factor.service.ts:157-185 | a lock with a deadline lasts until that very second |
| TwoFactor.FiveWrongCodesLockForFiveMinutes | backend-core/src/auth/two-factor.service.ts:157-185 | five wrong codes at once lock the account for exactly 300 seconds |
| TwoFactor.SecondFactorOnAndOff | backend-core/src/auth/two-factor.service.ts:51-137 | enrolling and confirming turns 2FA on with that secret and exactly those codes; disabling turns it off and erases both |
| TwoFactor.BackupCodesAreSingleUse | backend-core/src/auth/two-factor.service.ts:51-153 | in every run, Redis faults included: enabled implies a secret, enabled exactly when a code list exists, codes left = 8 - acceptances, a code accepted at most as often as its generation holds it |
| TwoFactor.LockoutBound | backend-core/src/auth/two-factor.service.ts:95-185 | failing verifications from a cleared counter, by login, disable or regenerate and with any Redis faults, are at most 5 * (T / 300 + 1) in T seconds, plus those whose INCR did not run |
| TwoFactor.CountedFailuresOnly | backend-core/src/auth/two-factor.service.ts:176-185 | there are none of the latter if every INCR ran |
| TwoFactor.LockoutBoundIsReached | backend-core/src/auth/two-factor.service.ts:157-185 | for every number of windows a run that reaches that bound |
| TwoFactor.OverlappingVerificationsBound | backend-core/src/auth/two-factor.service.ts:157-185 | with at most K attempts between check and increment, counter plus attempts in flight never exceeds 4 + K, faults included |
| TwoFactor.OverlappingBoundIsReached | backend-core/src/auth/two-factor.service.ts:157-185 | for every K a run that counts 4 + K failures in one window |
| OverlappingBackups.SingleUseIffNoOverlap | backend-core/src/auth/two-factor.service.ts:95-118 | no backup code is accepted more often than its generation holds it, over all runs, if and only if verifications never overlap |
| OverlappingBackups.SameCodeIsAcceptedAgain | backend-core/src/auth/two-factor.service.ts:109-117 | for every K, one code is accepted by K verifications that loaded the same list |
| OverlappingBackups.SpentCodeComesBack | backend-core/src/auth/two-factor.service.ts:113-114 | a run in which saving an older list stores a spent code again |
| OverlappingBackups.AcceptancesAreBounded | backend-core/src/auth/two-factor.service.ts:95-118 | with K verifications in flight a generation of n codes is accepted at most K + K^2 + ... + K^n times, in any interleaving |
| TwoFactor.DeadlineIffOpeningExpired | backend-core/src/auth/two-factor.service.ts:176-185 | over any run from a cleared counter, the counter has a deadline if and only if INCR was answered and EXPIRE ran at the failure that opened its present window |
| TwoFactor.LostExpireLocksForGood | backend-core/src/auth/two-factor.service.ts:176-185 | five wrong codes of which the first loses its EXPIRE lock an account for good, whatever operations follow |
| TwoFactor.LockIsTemporaryIffDeadline | backend-core/src/auth/two-factor.service.ts:51-193 | some sequence of operations and waits ends a lock if and only if its counter has a deadline |
| TwoFactor.NoDeadlineNeverUnlocks | backend-core/src/auth/two-factor.service.ts:51-193 | without one, no operation of any kind ends the lock or changes the counter, valid codes included |
| Sessions.AuthService.Login | backend-core/src/auth/auth.service.ts:82-109 | wrong credentials and 2FA leave the registry alone; only a password with 2FA off issues a token |
| Sessions.AuthService.CompleteTwoFactorLogin | backend-core/src/auth/auth.service.ts:115-138 | a token is issued only on a valid step token and an accepted code |
| Sessions.AuthService.RefreshTokens | backend-core/src/auth/auth.service.ts:144-169 | check, revocation, user lookup, save, with each Redis outcome |
| Sessions.AuthService.Logout | backend-core/src/auth/auth.service.ts:171-181 | always succeeds; deletes the presented token's key if the command ran |
| Sessions.AuthService.Issue | backend-core/src/auth/auth.service.ts:183-199 | the token is handed out only if its save was answered |
| Sessions.IssuedTokenIsGoodForSevenDays | backend-core/src/auth/auth.service.ts:144-199 | a token from an accepted login or refresh, not presented meanwhile, is accepted by an answered refresh exactly for 604800 seconds and while its user exists |
| Sessions.PresentedTokenIsNeverAcceptedAgain | backend-core/src/auth/auth.service.ts:144-181 | a token that was rotated, or logged out, is refused in every continuation |
| Sessions.StepTokenIsGoodForFiveMinutes | backend-core/src/auth/auth.service.ts:97-106 | a password login with 2FA on issues no token, and a step token that names its user for exactly 300 seconds |
| Sessions.CompletionOpensASession | backend-core/src/auth/auth.service.ts:115-138 | with an answered save, a completion hands out a token if and only if its code was accepted |
| Sessions.VerdictErrors | backend-core/src/auth/two-factor.service.ts:157-174 | a lock, an outage and a wrong code are answered differently |
| Sessions.RefreshSwapsOneToken | backend-core/src/auth/auth.service.ts:144-169 | a successful refresh swaps exactly one live token for one fresh one; the number of live tokens is the same for every user |
| Sessions.FailedRefreshAddsNothing | backend-core/src/auth/auth.service.ts:144-169 | a failed refresh leaves no new live token unless its save ran and only the answer was lost |
| Sessions.RefreshNeverAdds | backend-core/src/auth/auth.service.ts:144-169 | whatever Redis does, no refresh raises a user's token count |
| Sessions.RotationConservesSessions | backend-core/src/auth/auth.service.ts:144-199 | in every run: no jti is accepted twice, and a user's live tokens never exceed completed logins plus logins whose save went unanswered |
| Sessions.AnsweredLoginsBoundSessions | backend-core/src/auth/auth.service.ts:183-199 | while no login's save went unanswered, live tokens never exceed completed logins |
| Sessions.OpenedAtTheBound | backend-core/src/auth/auth.service.ts:183-199 | at that bound, opening a session breaks it if and only if its save ran and was not answered |
| Sessions.LoginAtTheBound | backend-core/src/auth/auth.service.ts:82-109 | in particular for an accepted login after any run |
| Sessions.LostAnswerLeavesALiveToken | backend-core/src/auth/token-store.service.ts:26-43 | a run with no completed login and one live token: why the bound needs its second term |
| Sessions.EveryTokenDescends | backend-core/src/auth/auth.service.ts:82-169 | in every run each token descends by rotations from a password login with 2FA off or a completion whose code was accepted |
| Sessions.ChallengeFollowsAPassword | backend-core/src/auth/auth.service.ts:97-106 | behind each step token stands an earlier password login of the same user with 2FA on |
| OverlappingRefreshes.AcceptedAtMostOverlap | backend-core/src/auth/auth.service.ts:144-169 | with check, revocation and save as separate steps, a token is accepted at most as often as calls presenting it overlap |
| OverlappingRefreshes.OverlapIsReached | backend-core/src/auth/auth.service.ts:153-169 | for every K, K calls that check before the first revokes are all accepted and leave K live tokens |
| OverlappingRefreshes.OnceIffNoOverlap | backend-core/src/auth/auth.service.ts:144-169 | a token is accepted at most once in every run if and only if calls presenting it never overlap |
| SharedRefresh.AuthInterceptors.SharedPromise | frontend-web/src/api/auth-interceptors.ts:24-39 | posts a refresh only if none is in flight, and returns the shared one |
| SharedRefresh.AuthInterceptors.Send | frontend-web/src/api/auth-interceptors.ts:51-57 | each sending carries the access token of that moment, or, without a session, the header it already had |
| SharedRefresh.AuthInterceptors.HandleResponse | frontend-web/src/api/auth-interceptors.ts:60-95 | a first 401 with a session awaits the shared refresh; other failures reject, and purge the session when a replay failed |
| SharedRefresh.AuthInterceptors.Resume | frontend-web/src/api/auth-interceptors.ts:84-93 | after the await: replay, or purge and reject |
| SharedRefresh.AuthInterceptors.HandleRefreshResponse | frontend-web/src/api/auth-interceptors.ts:26-35 | on success the session is set before the promise is released; on any failure the promise is released |
| SharedRefresh.OneRefreshAtATime | frontend-web/src/api/auth-interceptors.ts:19-95 | in every interleaving at most one refresh call is outstanding, each request is sent at most twice, and a replay carries a newer token than the refused one, or the refused one again if the session was purged meanwhile |
| RequestOutcomes.RetriedIffMet401 | frontend-web/src/api/auth-interceptors.ts:60-82 | in every run a request was retried if and only if its first sending was answered 401 while there was a session |
| RequestOutcomes.SentOnceWithout401 | frontend-web/src/api/auth-interceptors.ts:60-82 | and is sent at most once if not |
| RequestOutcomes.OtherFailuresReject | frontend-web/src/api/auth-interceptors.ts:72-80 | any other failure of a first sending, and a 401 without a session, rejects the request and changes nothing else |
| RequestOutcomes.First401Awaits | frontend-web/src/api/auth-interceptors.ts:82-85 | a first 401 with a session awaits the refresh in flight or posts the one it awaits; the session stays |
| RequestOutcomes.RefusedReplayEndsSession | frontend-web/src/api/auth-interceptors.ts:84-93 | a refused replay, whatever its status, rejects the request and ends the session |
| RequestOutcomes.FulfilledIffAnswered | frontend-web/src/api/auth-interceptors.ts:60-61 | in every run a request is fulfilled if and only if one of its sendings was answered with success |
| RequestOutcomes.SendingCarriesTheSession | frontend-web/src/api/auth-interceptors.ts:51-57 | a first sending, and the replay while there is a session, carry the session's token |
| RequestOutcomes.RefreshSettles | frontend-web/src/api/auth-interceptors.ts:26-35 | a granted refresh puts its tokens in the cookie and in memory and releases the promise; a denied one only releases it |
| RequestOutcomes.DeniedRefreshPurges | frontend-web/src/api/auth-interceptors.ts:84-93 | whoever awaited a denied refresh is rejected and the session is gone |
| RequestOutcomes.MountFollowsTheRefresh | frontend-web/src/features/auth/AuthProvider.tsx:42-48 | a mount awaits the shared refresh, ends with it, and sends nothing itself |
| RefreshTraffic.EveryRefreshIsCharged | frontend-web/src/api/auth-interceptors.ts:60-80 | a refresh response never starts another refresh: refresh calls never outnumber the requests that met a 401 and the mounts that restored a session |
| RefreshTraffic.TrafficIsBounded | frontend-web/src/api/auth-interceptors.ts:24-95 | a measure decreases with every step of client, network and server: at most ten steps per task in any run |
| RefreshTraffic.NothingHangs | frontend-web/src/api/auth-interceptors.ts:24-95 | while a task is unfinished some step is possible, so with the bound every task finishes |
| SharedRotation.CookieStaysLive | backend-core/src/auth/auth.controller.ts:75-88 | client and server composed, with the handler's three steps interleaved: the cookie is live whenever no refresh is outstanding, every shared refresh succeeded, and the session was lost if and only if a replay was refused |
| SharedRotation.CallStepKeepsCookie | backend-core/src/auth/auth.service.ts:144-199 | each step of a rotation hands the context's one live token to the next |
| SharedRotation.HandlerIsItsSteps | backend-core/src/auth/auth.service.ts:144-169 | the three steps, taken in a row, are the atomic rotation of `Sessions` |
| SharedRotation.RefusedReplayPurges | frontend-web/src/api/auth-interceptors.ts:84-93 | a run in which the refresh succeeds, the cookie is live, and a replay answered 500 purges the session |
| SharedRotation.RevokedElsewherePurges | frontend-web/src/api/auth-interceptors.ts:84-93 | a run in which another holder of the cookie revokes its token first: why one context is assumed |
| Chat.OtherParticipantInverts | backend-core/src/chat/chat.service.ts:146-148 | both participants derive the same id, and from it each finds the other |
| Chat.ContainsExactlyParticipants | backend-core/src/chat/chat.service.ts:113-114 | a user id occurs in a conversation id if and only if it is one of the two participants |
| Chat.ConversationIdIsInjective | backend-core/src/chat/chat.service.ts:60-62 | two pairs of users never share a conversation id |
| Chat.ChatService.SendMessage | backend-core/src/chat/chat.service.ts:65-88 | appends the trimmed message, or refuses in the source's order and stores nothing |
| Chat.SentMessageJoinsAPair | backend-core/src/chat/chat.service.ts:154-172 | a message that is stored joins a recruiter and a freelancer |
| Chat.RefusedInOrder | backend-core/src/chat/chat.service.ts:70-80 | a blank or too long body, then an unknown target, then two roles other than a recruiter's and a freelancer's; nothing else is refused |
| Chat.TrimCutsWhiteSpace | backend-core/src/chat/chat.service.ts:70 | trimming cuts exactly the white space at both ends |
| Chat.Utf16LengthBounds | backend-core/src/chat/chat.service.ts:74 | length counts one unit for each character of the basic plane and two for every other |
| Chat.ThreadEndsWithNewest | backend-core/src/chat/chat.service.ts:95-107 | a history is empty exactly when its thread is, and ends with the newest message |
| Chat.ThreadIsNewestFifty | backend-core/src/chat/chat.service.ts:95-107 | a history is the fifty newest messages of the two users, or all if fewer, oldest first, each as often as it was sent, and nothing left out is newer |
| Chat.SentMessageIsRead | backend-core/src/chat/chat.service.ts:82-107 | a message newer than all others ends the history, as either user reads it |
| Chat.ConversationsMatchHistory | backend-core/src/chat/chat.service.ts:95-143 | with distinct timestamps and fixed roles the list names exactly the users with whom the reader gets a non-empty history, role check included, each once, newest first, and shows the very message that history ends with |

## Left out

- CacheCoherence.CoherentIffNotOvertaken: a fixed set of freelancers; a registration changes the answers and publishes nothing, so only `BoundedStaleness` covers it.
- TwoFactor.TwoFactorService.VerifyCode: database faults are not modelled; overlapping verifications are in `OverlappingVerificationsBound` for the counter and in `OverlappingBackups` for the codes, and a new generation of codes that overlaps a verification is in neither.
- Sessions.RotationConservesSessions: handlers are atomic; overlapping refreshes of one token are in `OverlappingRefreshes`.
- TokenRegistry.TokenStore.SaveToken: a transaction runs whole or not at all; the error of a single command inside it is no outcome.
- SharedRefresh.OneRefreshAtATime: a login or a logout of the same tab during the run is no event.
- SharedRotation.CookieStaysLive: no login or logout of the context itself during the run; a connection cut while the handler works counts as the loss of its answer.
- Scoring.ScoreSkills: lower-casing is exact for ASCII letters only.
- Chat.ConversationsMatchHistory: nobody changes role, and a token carries the role its user has.
- FreelancerRepo.GetCandidates: profiles are values in an insertion-ordered list, so the sharing of one mutable profile by the dictionary and the loop is not captured.
- Cryptography: password hashes, TOTP codes, JWT signatures and encryption are inputs or ideal; a jti is never generated twice (section 4.1.7 of RFC 7519), and no two requests of a run share a digest.
- UUIDs are numbers, written in decimal where they become text.
- PostGIS: "within the radius" and the distance are given functions; the SQL statement is a specification (`IsOuterJoin`).
- Floating point: exact reals; only the rounding of results is written out.
- JSON: a cached payload reads back as what was written.
- PDF rewriting is a given partial function; the text of signed URLs is not modelled.
- A Redis command that the client library sends again after a reconnection can run twice and be answered once; each command here runs at most once.
- An entity read by one handler and saved by another: TypeORM's whole-row saves can overwrite each other.
- A setLoadout that overlaps a review of the same item.
- Consumer group creation, the pending gauge, metrics, logs, health probes, sockets and React components.
- Pagination, public views, avatars, listing endpoints and `register`: one-branch code with nothing to relate.
- The mobile client's refresh token in the request body.
