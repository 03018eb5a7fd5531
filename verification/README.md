# Qesto: models and proofs

This project models the parts of Qesto that keep state over long runs and proves what they keep.

- **Deals store and sync** (`DealsExtractor`, `DealsStorage`, `DealsHistory`, `DealsListing`,
  `DealsPipeline`). Posts are edited and read again, one code can come from many posts, and a sync can
  break off between any two transactions. The three tables nevertheless always equal a function
  of the last attempt on each post.
- **Extractor arithmetic and matching** (`Calendar`, `Merchants`). Expiry dates with Gregorian day
  numbers; greedy matching of merchant names.
- **Rate limiter** (`RateLimiter`). Queues with lazy eviction against a limiter that forgets nothing.
- **Telegram preview parser** (`TelegramParser`). Depth counters over an event stream against a
  recursive reading of the element tree.
- **Android notification inbox** (`NotificationInbox`) and **export bridge** (`ExportBridge`). Two small
  protocols with failing storage, stale acknowledgements, repeated picker answers and late workers.
- **Reference-counted values** (`ValueHeap`, `ValueStore`, `PtrArray`) and the **Linux codec**
  (`ValueTrees`, `ValueCodec`). Counts, recursive freeing, keyed replacement, and a round trip.
- **Embedded browser lifecycle** (`BrowserLifecycle`, `BrowserWindows`). Asynchronous create and close over
  several registries; several handlers that share one stored focus.

`Common` holds the few definitions that several modules share.

Each module has the same shape. Functions say what one step does to a value of the whole state; a class
carries the same fields as the code and its methods are proved to do exactly that step; lemmas then
state what holds over every run of steps. `dafny verify dfyconfig.toml` checks everything.

What the environment does is a parameter throughout: clocks, key stores, commits that fail (and may have
taken effect), operations that raise, engine callbacks, query results. Ghost parameters name the
references a caller holds.

Four things the code does not keep are stated with the exact condition under which it does.

- The clock is read before the lock, so times can go back in lock order. Once times are in order again, behind
  no earlier call of any client, a client is answered as by its full history if and only if its own times
  never went back (`RateLimiter.LaterAnswersAgreeExactly`). While other clients' times are ahead, a client
  in its own order is still answered so for every call that is not behind the last sweep, and lagging
  behind the sweep by any positive amount is too much (`RateLimiter.AgreesBehindSweepsExactly`). Windows
  hold the maximum if and only if they are shorter than the configured one by as much as times go back
  (`RateLimiter.WindowsHoldExactly`). `RateLimiter.OutOfOrderTimesBreakAgreement` and
  `RateLimiter.OutOfOrderTimesOverAdmit` show a run each.
- A text container inside another ends the text of the outer one. A message is read plainly if and only if
  nothing follows such an inner container (`TelegramParser.PlainReadingExactly`, and
  `TelegramParser.NestedContainersLoseText` for the pages that lose text).
- A browser that goes away unasked leaves its texture registered. Textures are registered for exactly the
  browsers opened and not closed on request (`BrowserLifecycle.TexturesExactly`, with the run in
  `BrowserLifecycle.UnaskedCloseLeavesTexture`).
- A container stored below itself can outlive its last handle. Runs stay free of cycles if and only if no
  operation stores what leads to its container, and then nothing leaks (`ValueHeap.RunStaysAcyclicExactly`,
  `ValueHeap.TreeProgramsLeakNothing`, with a leaking run in `ValueHeap.StoredInItselfLeaks`).

Also, a written year does not stop a long past date from being moved one year on
(`Calendar.SafeDateExactly`), and source types or ids with a colon can share a key
(`DealsExtractor.ColonsCanCollide`; without one they cannot, `DealsExtractor.SourceKeysApart`).

## Model

| member | source | states |
|---|---|---|
| DealsHistory.LinksOfAnyHistory | services/deals_ingestion/qesto_deals/pipeline.py:40-62 | After any history of complete and broken-off post processings the links of each post are exactly those of its last attempt that began, cut where it was cut, and show its address; exactly the linked offers exist |
| DealsHistory.LinksFollowMessages | services/deals_ingestion/qesto_deals/storage.py:95-216 | When every processing completed, the link table is a function of the message table: pairs of a post and a key extracted from its stored, latest version |
| DealsHistory.OnlyLastAttemptsMatter | services/deals_ingestion/qesto_deals/pipeline.py:40-62 | Two histories that end alike for every post give the same links and the same offers, whatever their order and earlier versions |
| DealsHistory.InterruptionIsRepaired | services/deals_ingestion/qesto_deals/storage.py:27-35 | Breaking off a processing of any version anywhere and then processing the post completely equals never having started the first |
| DealsHistory.AnySequenceIsConsistent | services/deals_ingestion/qesto_deals/storage.py:57-77 | After any sequence of transactions keys are unique, links lead to offers and every offer has a link |
| DealsHistory.PrepareKeeps | services/deals_ingestion/qesto_deals/storage.py:133-157 | Detaching a post keeps consistency and removes exactly the links of that post |
| DealsHistory.SaveOfferKeeps | services/deals_ingestion/qesto_deals/storage.py:159-216 | A save never violates the tables' constraints; it adds exactly its own row id and link, reports creation exactly when the row is new, and leaves other rows alone |
| DealsHistory.AttemptLinks | services/deals_ingestion/qesto_deals/pipeline.py:40-62 | A processing cut after any number of transactions leaves its own post with the links it got to, under its own address, and the stored version and status it got to; other posts keep their links and addresses |
| DealsHistory.OneLinkPerOffer | services/deals_ingestion/qesto_deals/pipeline.py:53-62 | After a complete processing a post has as many links as it has extracted keys |
| DealsHistory.SourceOfferIsOwn | services/deals_ingestion/qesto_deals/pipeline.py:40-62 | After any history an offer under a post's source key is linked to that post alone |
| DealsHistory.LinkShowsFirstSave | services/deals_ingestion/qesto_deals/storage.py:204-215 | Over any interleaving a post is linked to an offer exactly if it was saved under its key since it was last detached, and the link shows the address of the first such save |
| DealsHistory.RowSummarisesItsSaves | services/deals_ingestion/qesto_deals/storage.py:161-203 | Over any interleaving, between creation and deletion a row shows the highest confidence saved, the content of the last save reaching it and the creation time of the first save |
| DealsStorage.Storage.PrepareMessageRefresh | services/deals_ingestion/qesto_deals/storage.py:133-157 | The loop over the post's offers removes its links and exactly the offers no other post links |
| DealsStorage.Storage.StoreOffer | services/deals_ingestion/qesto_deals/storage.py:159-216 | Insert, conditional update or refusal, and the link that is added only if absent |
| DealsStorage.Storage.StoreMessage | services/deals_ingestion/qesto_deals/storage.py:95-131 | The newest version replaces the stored one, nothing else changes |
| DealsStorage.Storage.IsMessageKnown | services/deals_ingestion/qesto_deals/storage.py:86-93 | Whether the post has a row |
| DealsListing.ListOffers | services/deals_ingestion/qesto_deals/storage.py:218-274 | The two-query form lists offers asked for, newest first, and for each what a query for that offer alone would: its first twenty links in key order; an offer asked for is missing only from a list filled to the limit, clamped to 1 to 500, with offers at least as new |
| DealsListing.SelectionExactly | services/deals_ingestion/qesto_deals/storage.py:225-237 | What the first query may answer: only offers of at least the confidence and of the kind asked for, distinct, newest first, and all of them unless the clamped limit is reached |
| DealsListing.GroupIsOwnQuery | services/deals_ingestion/qesto_deals/storage.py:242-258 | Ranking rows within each offer and grouping them in one pass gives the rows of the offer's own limited query |
| DealsListing.OwnQueryIsUnique | services/deals_ingestion/qesto_deals/storage.py:242-258 | An offer's own limited query has at most one answer |
| DealsListing.OwnQueryHasAnswer | services/deals_ingestion/qesto_deals/storage.py:242-258 | An offer's own limited query always has an answer |
| DealsPipeline.Pipeline.Sync | services/deals_ingestion/qesto_deals/pipeline.py:30-69 | Whatever raises: the tables change by the transactions of turns on fetched posts; the errors are the names of the failed sources in order, each source not fetched among them, one for each operation that raised; new messages are the growth of the message table up to one for each failure; without failures created plus duplicates are all offers extracted, every post read is stored with its status and linked exactly as in its last version, under its address, and all other posts are left as they were |
| DealsPipeline.SyncContinuesHistory | services/deals_ingestion/qesto_deals/pipeline.py:30-69 | The tables after a sync are those of the earlier history continued by the attempts of the sync, so the results on histories apply to it |
| DealsPipeline.CompleteTurnsLink | services/deals_ingestion/qesto_deals/pipeline.py:40-62 | From any consistent tables, complete turns store every post they read in its last version with its status, link it to exactly the keys of that version under its address, and leave every other post's row and links alone |
| DealsPipeline.Pipeline.SyncSource | services/deals_ingestion/qesto_deals/pipeline.py:33-68 | A source that could not be fetched or of which an operation raised is counted and recorded once, and does not stop the others |
| DealsPipeline.Pipeline.SyncMessages | services/deals_ingestion/qesto_deals/pipeline.py:40-62 | Posts are processed in order and completely until one raises; the rest is left |
| DealsPipeline.Pipeline.ProcessMessage | services/deals_ingestion/qesto_deals/pipeline.py:40-62 | One post runs a prefix of its transactions, all of them unless something raised; creations are counted exactly |
| DealsPipeline.Pipeline.StoreOffers | services/deals_ingestion/qesto_deals/pipeline.py:57-62 | Offers are saved in order; each is counted as created or duplicate, and no save collides |
| DealsPipeline.TurnsTell | services/deals_ingestion/qesto_deals/pipeline.py:53-62 | The offers and rejections counted over turns are those of the posts they went through |
| DealsExtractor.KeysDistinct | services/deals_ingestion/qesto_deals/extractor.py:188-193 | One post never yields the same dedupe key twice, although codes are compared in upper case and keys folded to lower case |
| DealsExtractor.KeysExactly | services/deals_ingestion/qesto_deals/extractor.py:97-157 | The keys of an accepted post are those of its codes, or its source key if it has none and is an offer |
| DealsExtractor.SourceKeysApart | services/deals_ingestion/qesto_deals/extractor.py:188-193 | Posts of different identity never share a source key, if no colon stands in their source type and id |
| DealsExtractor.ColonsCanCollide | services/deals_ingestion/qesto_deals/extractor.py:191-192 | With a colon there they can |
| DealsExtractor.SourceIsNoPromo | services/deals_ingestion/qesto_deals/extractor.py:188-193 | No source key is a promo key |
| DealsExtractor.PromoKeysMeet | services/deals_ingestion/qesto_deals/extractor.py:188-190 | Codes share a key if and only if they are equal without regard to case |
| DealsExtractor.SourceKeyIsOwn | services/deals_ingestion/qesto_deals/extractor.py:188-193 | A source key is among the keys of its own post only |
| DealsExtractor.CodesExactly | services/deals_ingestion/qesto_deals/extractor.py:231-241 | The codes are pairwise different, and a code is among them if and only if a candidate yields it: cleaned, valid under that candidate's formatting |
| DealsExtractor.PostCodesExactly | services/deals_ingestion/qesto_deals/extractor.py:231-253 | A string is a code of a post if and only if it is the upper-case form of a formatted code or keyword finding, a token of 4 to 20 letters, digits, hyphens or underscores, and not rejected as found there |
| DealsExtractor.CodesInOrder | services/deals_ingestion/qesto_deals/extractor.py:231-241 | The codes come in the order in which they first occur, formatted ones before keyword findings, each once |
| DealsExtractor.PromoCodes | services/deals_ingestion/qesto_deals/extractor.py:231-241 | The loop computes that list |
| DealsExtractor.Extract | services/deals_ingestion/qesto_deals/extractor.py:97-157 | One offer for each code, or one for a typed post without codes, or none, each with the hash of its key as id |
| DealsExtractor.OffersTell | services/deals_ingestion/qesto_deals/extractor.py:97-229 | The offers of a post show, each, the wording for its own code and place, and the post's identity, address and time of extraction |
| Merchants.MerchantMatches | services/deals_ingestion/qesto_deals/extractor.py:261-276 | Chosen first occurrences never overlap; every other alias does not occur or its first occurrence overlaps a chosen alias at least as long; the merchants are those of the chosen aliases in order of choice, each once |
| Merchants.FirstMerchant | services/deals_ingestion/qesto_deals/extractor.py:257-259 | The merchant of the first alias that occurs, no longer alias occurring at all; none exactly if no alias occurs |
| Merchants.Find | services/deals_ingestion/qesto_deals/extractor.py:266-268 | The first occurrence of an alias, if any |
| Merchants.OccursExactly | services/deals_ingestion/qesto_deals/extractor.py:266-268 | An alias occurs exactly where the text can be cut in front of it and behind it |
| Merchants.OverlapExactly | services/deals_ingestion/qesto_deals/extractor.py:270 | The overlap test holds of two non-empty occurrences exactly if some place of the text lies in both |
| Calendar.YearlessDateIsNear | services/deals_ingestion/qesto_deals/extractor.py:334-354 | A date read without a year lies between 180 days before and 365 days after publication; exactly when there is none |
| Calendar.ValidUntilExactly | services/deals_ingestion/qesto_deals/extractor.py:334-354 | For every reading: today when it says so, none when it names no date, and otherwise the day and month in the year meant (written in full, two digits of this century, or that of publication) or the next exactly if that is over 180 days past |
| Calendar.DatesAreDays | services/deals_ingestion/qesto_deals/extractor.py:491-498 | The dates are exactly the days numbered 1 to 3652059, one date for each number |
| Calendar.SafeDateExactly | services/deals_ingestion/qesto_deals/extractor.py:491-498 | For every year written: the day and month are kept, the year is the written one or, exactly when the date is over 180 days past, the next; none exactly when that date does not exist |
| Calendar.OrdinalCountsDays | services/deals_ingestion/qesto_deals/extractor.py:494-495 | The day number used for date differences grows by one from each day to the next |
| Calendar.OrderIsOrdinal | services/deals_ingestion/qesto_deals/extractor.py:494 | Comparing dates field by field is comparing day numbers |
| Calendar.MonthLengths | services/deals_ingestion/qesto_deals/extractor.py:491-498 | The lengths of the twelve months |
| RateLimiter.AnswersAsFullHistory | services/deals_ingestion/qesto_deals/api.py:55-72 | For calls in lock order with nondecreasing times every answer is that of a limiter that keeps the whole history, whatever sweeps ran |
| RateLimiter.LaterAnswersAgreeExactly | services/deals_ingestion/qesto_deals/api.py:55-72 | After any calls, the answers to a client are the full-history ones, for every limit, window and continuation in which no time goes back behind any call of any client, if and only if the times of that client's own calls never went back |
| RateLimiter.AgreesBehindSweepsExactly | services/deals_ingestion/qesto_deals/api.py:55-72 | For clients whose own times are in order, other clients' times being anything: every answer is the full-history one as long as the last sweep is ahead of the call by at most some amount, if and only if that amount is zero (or the limiter admits nothing, or its window is empty) |
| RateLimiter.SweptInTimeAgrees | services/deals_ingestion/qesto_deals/api.py:59-71 | A call that is no earlier than the last sweep, of a client whose own times are in order, is answered as by the full history |
| RateLimiter.SortedQueuesCount | services/deals_ingestion/qesto_deals/api.py:66-69 | Evicting from the front leaves as many times as are recent, at every threshold, if and only if the queue is in order |
| RateLimiter.GrantedIsAdmitted | services/deals_ingestion/qesto_deals/api.py:55-72 | With nondecreasing times the calls let through are exactly those the full-history limiter admits |
| RateLimiter.NoWindowOverflows | services/deals_ingestion/qesto_deals/api.py:55-72 | No window of the configured length holds more than the maximum of one client's admissions |
| RateLimiter.WindowsHoldExactly | services/deals_ingestion/qesto_deals/api.py:55-72 | If times go back by at most some amount, every window of a given length holds at most the maximum of one client's admissions, in every such run, if and only if length and amount together are at most the configured window |
| RateLimiter.ShorterWindowsHold | services/deals_ingestion/qesto_deals/api.py:55-72 | The half that protects the service: what every single run with bounded disorder still promises for shorter windows |
| RateLimiter.OutOfOrderTimesBreakAgreement | services/deals_ingestion/qesto_deals/api.py:56-58 | A concrete run with a time that goes back: a call is refused although fewer than the maximum are recent |
| RateLimiter.OutOfOrderTimesOverAdmit | services/deals_ingestion/qesto_deals/api.py:56-65 | A concrete run in which another client's later time sweeps an admission away: the client's own times are in order, its answer is not the full-history one, and one window holds one admission too many |
| RateLimiter.ClientRateLimiter.Allow | services/deals_ingestion/qesto_deals/api.py:55-72 | The queues after a call and its answer |
| RateLimiter.ClientRateLimiter.SweepAll | services/deals_ingestion/qesto_deals/api.py:59-65 | The periodic sweep drops old times of every client and forgets clients with none left |
| NotificationInbox.CapturedDeliverySurvives | apps/qesto_app/android/app/src/main/kotlin/ru/qesto/qesto/NotificationInbox.kt:28-124 | A captured delivery outlives every run that does not acknowledge its version, capture its key again, erase or look after its expiry, and captures at most 99 others, whatever fails and however often the process restarts |
| NotificationInbox.StepKeeps | apps/qesto_app/android/app/src/main/kotlin/ru/qesto/qesto/NotificationInbox.kt:45-122 | A delivery leaves only by acknowledgement of its version, a newer delivery under its key, expiry, the bound, or erasure |
| NotificationInbox.SuccessIsExact | apps/qesto_app/android/app/src/main/kotlin/ru/qesto/qesto/NotificationInbox.kt:45-122 | When an operation succeeds it loses exactly the deliveries it may lose |
| NotificationInbox.OutcomeExactly | apps/qesto_app/android/app/src/main/kotlin/ru/qesto/qesto/NotificationInbox.kt:45-156 | How every operation ends, for every stored value: it succeeds exactly if the inbox can be read (latch open; nothing, clear text or something decryptable stored) and, if it must write (a capture, clear text, or something to lose), encryption and commit work; what is stored afterwards in each case |
| NotificationInbox.FirstCaptureIsHeld | apps/qesto_app/android/app/src/main/kotlin/ru/qesto/qesto/NotificationInbox.kt:45-66 | The first capture of a fresh inbox leaves exactly that delivery, and reading a fresh inbox gives nothing |
| NotificationInbox.StaleAcknowledgementIsHarmless | apps/qesto_app/android/app/src/main/kotlin/ru/qesto/qesto/NotificationInbox.kt:111-124 | An acknowledgement of another version removes nothing |
| NotificationInbox.AcknowledgementIsExact | apps/qesto_app/android/app/src/main/kotlin/ru/qesto/qesto/NotificationInbox.kt:111-124 | A successful acknowledgement removed its own version and nothing else |
| NotificationInbox.ReadReturnsWhatIsHeld | apps/qesto_app/android/app/src/main/kotlin/ru/qesto/qesto/NotificationInbox.kt:69-98 | A successful read returns what is stored afterwards |
| NotificationInbox.StepBounded | apps/qesto_app/android/app/src/main/kotlin/ru/qesto/qesto/NotificationInbox.kt:45-65 | Keys stay unique and a successful capture leaves at most 100 deliveries |
| NotificationInbox.RunBounded | apps/qesto_app/android/app/src/main/kotlin/ru/qesto/qesto/NotificationInbox.kt:28-124 | Over every run, restarts included, at most 100 deliveries, no two under one key |
| NotificationInbox.UndecodableIsPreserved | apps/qesto_app/android/app/src/main/kotlin/ru/qesto/qesto/NotificationInbox.kt:142-146 | A blob that cannot be decoded is never changed before an erase, and every operation is refused, also after restarts |
| NotificationInbox.FailedWriteLatches | apps/qesto_app/android/app/src/main/kotlin/ru/qesto/qesto/NotificationInbox.kt:126-127 | After a failed commit every capture, read and acknowledgement is refused until an erase commits or the process restarts |
| NotificationInbox.LatchFollowsCommits | apps/qesto_app/android/app/src/main/kotlin/ru/qesto/qesto/NotificationInbox.kt:101-156 | The latch closes exactly on a failed commit and opens only on an erase that commits |
| NotificationInbox.ClearTextIsMigrated | apps/qesto_app/android/app/src/main/kotlin/ru/qesto/qesto/NotificationInbox.kt:131-141 | On a clear-text inbox, whatever decryption, encryption and commit do: an operation succeeds exactly when the commit does and, unless it erases, encryption does; then it does what it does on the encrypted inbox and leaves it encrypted; otherwise the inbox is as before, or as wanted when a failed commit took effect |
| NotificationInbox.Inbox.SaveDelivery | apps/qesto_app/android/app/src/main/kotlin/ru/qesto/qesto/NotificationInbox.kt:29-66 | The capture on the stored value and the latch |
| NotificationInbox.Inbox.ReadDeliveries | apps/qesto_app/android/app/src/main/kotlin/ru/qesto/qesto/NotificationInbox.kt:69-98 | The read on the stored value and the latch |
| NotificationInbox.Inbox.Acknowledge | apps/qesto_app/android/app/src/main/kotlin/ru/qesto/qesto/NotificationInbox.kt:111-124 | The acknowledgement on the stored value and the latch |
| NotificationInbox.Inbox.EraseAll | apps/qesto_app/android/app/src/main/kotlin/ru/qesto/qesto/NotificationInbox.kt:101-108 | The erase on the stored value and the latch |
| ExportBridge.EveryRequestIsAnsweredOnce | apps/qesto_app/android/app/src/main/kotlin/ru/qesto/qesto/AiExportFileBridge.kt:14-80 | In every run each export call is answered exactly once, or not yet if it is the pending one; a success was written with its own bytes; after disposal nothing is unanswered |
| ExportBridge.AnswersHaveCauses | apps/qesto_app/android/app/src/main/kotlin/ru/qesto/qesto/AiExportFileBridge.kt:14-80 | In every run an answer was given if and only if there was a cause for it: the kind of call turned down, the picker left, a worker's report on the pending request as it was, or disposal |
| ExportBridge.PendingExactly | apps/qesto_app/android/app/src/main/kotlin/ru/qesto/qesto/AiExportFileBridge.kt:14-80 | A request is pending if and only if it was taken up and nothing has happened since that answers it |
| ExportBridge.WorkersExactly | apps/qesto_app/android/app/src/main/kotlin/ru/qesto/qesto/AiExportFileBridge.kt:53-69 | Each document chosen for the pending request starts one worker with its bytes, which works until it reports |
| ExportBridge.SavedExactly | apps/qesto_app/android/app/src/main/kotlin/ru/qesto/qesto/AiExportFileBridge.kt:53-69 | A document counts as saved exactly if its worker reports having written it |
| ExportBridge.OpenUntilDisposed | apps/qesto_app/android/app/src/main/kotlin/ru/qesto/qesto/AiExportFileBridge.kt:14-78 | Calls are taken until the bridge is disposed, each with its own bytes |
| ExportBridge.StepSettled | apps/qesto_app/android/app/src/main/kotlin/ru/qesto/qesto/AiExportFileBridge.kt:14-80 | Each event keeps the balance of answers |
| ExportBridge.StepSavedHonest | apps/qesto_app/android/app/src/main/kotlin/ru/qesto/qesto/AiExportFileBridge.kt:53-69 | A success is reported only for bytes a worker of that very request wrote |
| ExportBridge.AiExportFileBridge.OnCall | apps/qesto_app/android/app/src/main/kotlin/ru/qesto/qesto/AiExportFileBridge.kt:15-39 | The call handler's branches |
| ExportBridge.AiExportFileBridge.OnActivityResult | apps/qesto_app/android/app/src/main/kotlin/ru/qesto/qesto/AiExportFileBridge.kt:43-71 | The picker's answers, including repeated ones |
| ExportBridge.AiExportFileBridge.OnWorkerDone | apps/qesto_app/android/app/src/main/kotlin/ru/qesto/qesto/AiExportFileBridge.kt:58-68 | A worker's report counts only for the pending request it was started for |
| ExportBridge.AiExportFileBridge.Close | apps/qesto_app/android/app/src/main/kotlin/ru/qesto/qesto/AiExportFileBridge.kt:73-78 | Disposal answers the pending request |
| BrowserLifecycle.EveryRequestAnsweredOrWaiting | apps/qesto_app/packages/webview_cef/common/webview_handler.cc:155-437 | In every run of one handler, whatever other handlers do to the shared focus, each create and each close request has been answered once or is waiting in its registry, never both, and the registries agree |
| BrowserLifecycle.NavigationNeedsOwnCreate | apps/qesto_app/packages/webview_cef/common/webview_handler.cc:653-662 | A navigation is let through only for the blank page or an origin listed in the one create call whose reply carried this browser's id |
| BrowserLifecycle.NavigationExactly | apps/qesto_app/packages/webview_cef/common/webview_handler.cc:653-662 | In every run a navigation is let through if and only if it is to the blank page, or the browser is registered and the origin was listed in the create request that was told of it |
| BrowserLifecycle.DevtoolsAreOwn | apps/qesto_app/packages/webview_cef/common/webview_handler.cc:366-383 | A registered browser allows developer tools exactly if its own create request asked for them |
| BrowserLifecycle.AllowListIsFixed | apps/qesto_app/packages/webview_cef/common/webview_handler.cc:170-174 | The allow-list of a browser does not change before the browser is gone |
| BrowserLifecycle.CloseRepliesComeLast | apps/qesto_app/packages/webview_cef/common/webview_handler.cc:192-206 | A close reply comes only when the browser is no longer registered |
| BrowserLifecycle.TexturesExactly | apps/qesto_app/packages/webview_cef/common/webview_plugin.cc:283-313 | In every run a texture is registered for exactly the ids that a create reply named and no later reply to a close request for that id took away |
| BrowserLifecycle.UnaskedCloseLeavesTexture | apps/qesto_app/packages/webview_cef/common/webview_plugin.cc:295-313 | From the start, a browser that is created and goes away unasked is no longer registered but its texture is |
| BrowserLifecycle.OrdersExactly | apps/qesto_app/packages/webview_cef/common/webview_handler.cc:155-183 | In every run a browser was sent to an address if and only if a create request for that address was told of it; the engine was asked to close every browser somebody waits to see closed and every one that belongs to no create request, and no others |
| BrowserLifecycle.BrowsersExactly | apps/qesto_app/packages/webview_cef/common/webview_handler.cc:155-206 | In every run exactly the browsers that the engine has reported, popups aside, and not reported gone are registered |
| BrowserLifecycle.FocusReportedExactly | apps/qesto_app/packages/webview_cef/common/webview_handler.cc:730-736 | In every run the handler reports the stored focus if and only if there is none or it is one of its own browsers; it never reports a foreign one |
| BrowserLifecycle.FocusExactly | apps/qesto_app/packages/webview_cef/common/webview_handler.cc:69-74 | In every run a browser wishes for the focus, and has the stored one, if and only if some event gave it and none has ended it since |
| BrowserWindows.EveryHandlerIsInStep | apps/qesto_app/packages/webview_cef/common/webview_handler.cc:42-44 | With any number of handlers sharing the one stored focus, each answers its requests once, keeps its registries in step, has textures for exactly its opened and not closed browsers, gives the engine exactly the orders it should and keeps each browser's own allow-list |
| BrowserWindows.FocusIsReportedByItsOwner | apps/qesto_app/packages/webview_cef/common/webview_handler.cc:710-736 | In every run of all handlers a stored focus is a live browser of exactly one of them, and a handler reports the stored focus if and only if there is none or the browser is its own |
| BrowserLifecycle.StepKeeps | apps/qesto_app/packages/webview_cef/common/webview_handler.cc:155-437 | Every event keeps registries, recorded requests and the balance of replies in step |
| BrowserLifecycle.StepOwned | apps/qesto_app/packages/webview_cef/common/webview_handler.cc:164-180 | The allow-list installed for an id comes from the create call that was told this id |
| BrowserLifecycle.StepReplies | apps/qesto_app/packages/webview_cef/common/webview_handler.cc:155-437 | The replies that each event gives, and no others |
| BrowserLifecycle.FocusKeeps | apps/qesto_app/packages/webview_cef/common/webview_handler.cc:710-728 | Focus changes through one handler keep its own stored focus on a live browser that was asked to have it |
| BrowserLifecycle.WebviewHandler.CreateBrowser | apps/qesto_app/packages/webview_cef/common/webview_handler.cc:366-426 | Both pending registries get the entry, or neither keeps it |
| BrowserLifecycle.WebviewHandler.OnAfterCreated | apps/qesto_app/packages/webview_cef/common/webview_handler.cc:155-183 | The search by context identity and the hand-over to the create call |
| BrowserLifecycle.WebviewHandler.CloseBrowser | apps/qesto_app/packages/webview_cef/common/webview_handler.cc:346-364 | Queue, start closing, or answer at once |
| BrowserLifecycle.WebviewHandler.OnBeforeClose | apps/qesto_app/packages/webview_cef/common/webview_handler.cc:192-206 | Leaving every registry, then running the queued replies |
| BrowserLifecycle.WebviewHandler.SetClientFocus | apps/qesto_app/packages/webview_cef/common/webview_handler.cc:710-728 | The focus request on a registered browser |
| BrowserLifecycle.WebviewHandler.GetFocusedBrowser | apps/qesto_app/packages/webview_cef/common/webview_handler.cc:730-736 | The stored focus, if it is a registered browser that wants it |
| BrowserLifecycle.WebviewHandler.OnFocusedNode | apps/qesto_app/packages/webview_cef/common/webview_handler.cc:69-74 | Focus follows the page only for a browser that was asked to have it |
| ValueHeap.DropFreesExactlyTheUnreachable | apps/qesto_app/packages/webview_cef/common/webview_value.cc:291-360 | In an acyclic heap dropping a handle frees exactly the cells no other handle reaches, each once, follows no dangling pointer and changes no body |
| ValueHeap.EveryProgramIsSound | apps/qesto_app/packages/webview_cef/common/webview_value.cc:285-577 | Whatever program is run from the empty heap, counts are handles plus slots, nothing freed is touched and every freed cell was freed once |
| ValueHeap.StepStaysAcyclicExactly | apps/qesto_app/packages/webview_cef/common/webview_value.cc:532-577 | In a heap without cycles an operation closes one if and only if what it stores leads to the container it is stored in, whatever it releases |
| ValueHeap.RunStaysAcyclicExactly | apps/qesto_app/packages/webview_cef/common/webview_value.cc:285-577 | Every state of a run is free of cycles if and only if no operation of it stores what leads to its container |
| ValueHeap.AcyclicLeaksNothing | apps/qesto_app/packages/webview_cef/common/webview_value.cc:291-360 | In every sound state without cycles exactly the cells that the handles reach are alive |
| ValueHeap.TreeProgramsLeakNothing | apps/qesto_app/packages/webview_cef/common/webview_value.cc:285-577 | After every program that never stores a container below itself exactly the cells its handles reach are alive, and none once all handles are dropped |
| ValueHeap.StoredInItselfLeaks | apps/qesto_app/packages/webview_cef/common/webview_value.cc:540-568 | A program that stores a map in itself leaks it, and setting the entry of that map anew frees the map while it is changed |
| ValueHeap.UnrefOk | apps/qesto_app/packages/webview_cef/common/webview_value.cc:291-360 | Releasing an owned reference keeps the counts exact while a cell may be open for change |
| ValueHeap.Unref | apps/qesto_app/packages/webview_cef/common/webview_value.cc:291-360 | The recursive free ends on every heap, cyclic ones too: references in total never grow |
| ValueHeap.SetOk | apps/qesto_app/packages/webview_cef/common/webview_value.cc:561-568 | Setting an entry keeps the counts, also when the replaced key or value is the new one, in any map that the caller's references reach, in heaps with cycles too |
| ValueHeap.SetTakeOk | apps/qesto_app/packages/webview_cef/common/webview_value.cc:540-559 | Replacing or appending an entry in a map reached by the caller's references or by the new key or value, with the slots it leaves |
| ValueHeap.SetStringOk | apps/qesto_app/packages/webview_cef/common/webview_value.cc:570-577 | Setting an entry of a map that is reached under a new string key keeps the counts |
| ValueHeap.AppendOk | apps/qesto_app/packages/webview_cef/common/webview_value.cc:532-538 | Appending takes its own reference and keeps the counts |
| ValueStore.Store.Release | apps/qesto_app/packages/webview_cef/common/webview_value.cc:291-360 | The release as a recursion over a loop that frees slots |
| ValueStore.Store.FreeArray | apps/qesto_app/packages/webview_cef/common/webview_value.cc:95-103 | The loop releases every slot from the front |
| ValueStore.Store.SetEntry | apps/qesto_app/packages/webview_cef/common/webview_value.cc:561-568 | Both references are taken, then the first equal key is found |
| ValueStore.Store.SetTakeAt | apps/qesto_app/packages/webview_cef/common/webview_value.cc:540-559 | The slots are released and overwritten one after the other |
| ValueStore.Store.Lookup | apps/qesto_app/packages/webview_cef/common/webview_value.cc:150-160 | The first equal key, if any |
| ValueStore.Store.Equal | apps/qesto_app/packages/webview_cef/common/webview_value.cc:367-495 | Equality on values without maps |
| ValueStore.Store.GetBool | apps/qesto_app/packages/webview_cef/common/webview_value.cc:579-584 | A boolean, or false for another type or no pointer, read from the heap |
| ValueStore.Store.GetInt | apps/qesto_app/packages/webview_cef/common/webview_value.cc:586-591 | An integer, or zero for another type or no pointer, read from the heap |
| ValueStore.Store.GetFloat | apps/qesto_app/packages/webview_cef/common/webview_value.cc:593-598 | A single float, or zero for another type or no pointer, read from the heap |
| ValueStore.Store.GetDouble | apps/qesto_app/packages/webview_cef/common/webview_value.cc:600-605 | A double, or zero for another type or no pointer, read from the heap |
| ValueStore.Store.GetString | apps/qesto_app/packages/webview_cef/common/webview_value.cc:607-612 | A string, or none for another type or no pointer, read from the heap |
| ValueStore.Store.GetUint8List | apps/qesto_app/packages/webview_cef/common/webview_value.cc:614-619 | Bytes, or none for another type or no pointer, read from the heap |
| ValueStore.Store.GetInt32List | apps/qesto_app/packages/webview_cef/common/webview_value.cc:621-626 | 32-bit integers, or none for another type or no pointer, read from the heap |
| ValueStore.Store.GetInt64List | apps/qesto_app/packages/webview_cef/common/webview_value.cc:628-633 | 64-bit integers, or none for another type or no pointer, read from the heap |
| ValueStore.Store.GetFloatList | apps/qesto_app/packages/webview_cef/common/webview_value.cc:635-640 | Single floats, or none for another type or no pointer, read from the heap |
| ValueStore.Store.GetDoubleList | apps/qesto_app/packages/webview_cef/common/webview_value.cc:642-647 | Doubles, or none for another type or no pointer, read from the heap |
| ValueStore.Store.GetListValue | apps/qesto_app/packages/webview_cef/common/webview_value.cc:710-716 | The item at an index, or none past the end, for another type or no pointer |
| ValueStore.Store.GetByKey | apps/qesto_app/packages/webview_cef/common/webview_value.cc:752-761 | The value under the first equal key, or none |
| ValueStore.StillRepresents | apps/qesto_app/packages/webview_cef/common/webview_value.cc:291-360 | A value under a counted cell is unchanged by releases elsewhere |
| PtrArray.GrowableArray.Add | apps/qesto_app/packages/webview_cef/common/webview_value.cc:111-123 | Adding keeps what was stored across growth by doubling |
| PtrArray.GrowableArray.Index | apps/qesto_app/packages/webview_cef/common/webview_value.cc:125-130 | The stored pointer, or none past the end |
| ValueTrees.RoundTripExactly | apps/qesto_app/packages/webview_cef/linux/webview_cef_plugin.cc:60-208 | Sending a Flutter value to the plugin and back gives the same value exactly when no string holds a NUL and no map has equal keys |
| ValueTrees.DecodedReadsAsSent | apps/qesto_app/packages/webview_cef/linux/webview_cef_plugin.cc:136-178 | Every reader of the plugin gives of a decoded value what Flutter sent: booleans, integers and doubles as sent, strings up to their first NUL, typed lists as sent, and its default for a value of another type |
| ValueTrees.DecodedItems | apps/qesto_app/packages/webview_cef/linux/webview_cef_plugin.cc:179-190 | Item i of a decoded list is the decoding of item i, and there is none past the end |
| ValueTrees.LookupExactly | apps/qesto_app/packages/webview_cef/linux/webview_cef_plugin.cc:191-204 | Looking up a key in a decoded map gives the value sent last under an equal key, and nothing if and only if no equal key was sent |
| ValueTrees.EncodedComesBack | apps/qesto_app/packages/webview_cef/linux/webview_cef_plugin.cc:60-108 | The plugin's scalars come back from Flutter as themselves, except that a single float widens to a double and a string ends at its first NUL |
| ValueTrees.NumberEqExactly | apps/qesto_app/packages/webview_cef/common/webview_value.cc:382-386 | Finite numbers are equal by value, infinities to themselves, what is no number to nothing |
| ValueTrees.ScalarEqExactly | apps/qesto_app/packages/webview_cef/common/webview_value.cc:367-456 | Scalars are equal if and only if they have one type and equal contents |
| ValueTrees.SetAllKeepsAll | apps/qesto_app/packages/webview_cef/linux/webview_cef_plugin.cc:191-204 | Setting entries one by one loses none exactly when no two keys are equal, and keeps their order |
| ValueTrees.DecodeMergesExactly | apps/qesto_app/packages/webview_cef/linux/webview_cef_plugin.cc:136-178 | Decoding makes two keys equal if and only if they are equal up to the first NULs of their strings |
| ValueTrees.CleanIsUncut | apps/qesto_app/packages/webview_cef/linux/webview_cef_plugin.cc:136-178 | On keys whose strings hold no NUL that is equality itself |
| ValueCodec.DecodeFl | apps/qesto_app/packages/webview_cef/linux/webview_cef_plugin.cc:136-208 | Decoding builds the value on new cells, each with count one, behind a single handle |
| ValueCodec.EncodeFl | apps/qesto_app/packages/webview_cef/linux/webview_cef_plugin.cc:60-134 | Encoding reads that value back from the heap |
| ValueCodec.ReleaseFreesWhatWasBuilt | apps/qesto_app/packages/webview_cef/linux/webview_cef_plugin.cc:216-230 | Releasing the root of a decoded value frees every cell decoding allocated and nothing else |
| ValueCodec.AnswerWithArguments | apps/qesto_app/packages/webview_cef/linux/webview_cef_plugin.cc:211-231 | A call answered with its own arguments returns the same value exactly when it is clean, and leaves the heap as found but for freed cells |
| ValueCodec.SizeArguments | apps/qesto_app/packages/webview_cef/common/webview_plugin.cc:322-326 | The size call reads exactly the identifier and the three numbers that were sent, and zero where something else was sent |
| TelegramParser.ParserReadsTheTree | services/deals_ingestion/qesto_deals/telegram_source.py:76-184 | On every well-nested page, whatever is nested in what, the parser yields exactly the messages of the recursive reading in which a closing container ends the text, bounded and deduplicated as it says |
| TelegramParser.MessageIsShown | services/deals_ingestion/qesto_deals/telegram_source.py:161-184 | Reading a message adds one post if the start of its text reads as something, none otherwise; the post's links are the first 50 of the message, its codes the first 50, each once and in page order, its text the first 12000 characters normalised, its time the last time stamp |
| Common.DistinctListsFirsts | services/deals_ingestion/qesto_deals/telegram_source.py:167-168 | Dropping repetitions keeps exactly the members, each once, in the order of their first places |
| TelegramParser.InsideRun | services/deals_ingestion/qesto_deals/telegram_source.py:100-159 | Inside a message the counters and buffers follow that recursion element by element |
| TelegramParser.PlainReadingExactly | services/deals_ingestion/qesto_deals/telegram_source.py:100-159 | The text kept of a message is all the text below its containers if and only if nothing follows an inner container there; text and codes are all there is if and only if, besides, no innermost code element starts there |
| TelegramParser.PageReadPlainly | services/deals_ingestion/qesto_deals/telegram_source.py:76-184 | A page whose messages lose nothing yields exactly the plain reading, which knows nothing of open or closed |
| TelegramParser.NotNestedLosesNothing | services/deals_ingestion/qesto_deals/telegram_source.py:100-134 | Without a text container inside another nothing is lost |
| TelegramParser.OneContainerStaysOpen | services/deals_ingestion/qesto_deals/telegram_source.py:100-134 | Nothing is nested inside an open text container exactly if no further container begins there |
| TelegramParser.RunIgnoresChunks | services/deals_ingestion/qesto_deals/telegram_source.py:139-159 | For every stream, splitting or joining character data changes nothing |
| TelegramParser.SplitChangesNothing | services/deals_ingestion/qesto_deals/telegram_source.py:139-159 | A piece of character data may be split anywhere in any stream |
| TelegramParser.AddCodesIsCut | services/deals_ingestion/qesto_deals/telegram_source.py:121-130 | Stopping at fifty codes one by one is cutting the list of non-empty codes |
| TelegramParser.NestedContainersLoseText | services/deals_ingestion/qesto_deals/telegram_source.py:100-134 | For any two texts, the one that follows an inner container within the outer one is lost |
| TelegramParser.PreviewParser.HandleStartTag | services/deals_ingestion/qesto_deals/telegram_source.py:76-116 | The start-tag branches |
| TelegramParser.PreviewParser.HandleEndTag | services/deals_ingestion/qesto_deals/telegram_source.py:118-137 | The end-tag branches |
| TelegramParser.PreviewParser.HandleData | services/deals_ingestion/qesto_deals/telegram_source.py:139-147 | Bounded text and code buffers |
| TelegramParser.PreviewParser.FinishMessage | services/deals_ingestion/qesto_deals/telegram_source.py:161-184 | A message is emitted only with a text |

## Left out

- HTTP serving, sockets, SQL text, JSON, configuration and retries: input and output.
- Regular expressions, HTML tokenising, Unicode case mapping, text clean-up and URL parsing: library behaviour, parameters of the models.
- The wording, price and customer fields of an offer: one opaque payload.
- The creation time column of raw messages, which nothing reads.
- DealsHistory.LinksOfAnyHistory: assumes that the truncated offer-id hash is injective; a collision makes the save fail with an integrity error, which DealsStorage.Storage.StoreOffer models.
- DealsHistory.LinksFollowMessages: speaks of keys and links, not of payloads; an offer keeps the payload of a post that was detached while other posts still link it.
- DealsExtractor.KeysDistinct: assumes that upper-casing leaves no lower-case letter of the token alphabet.
- DealsListing.ListOffers: the query results are inputs constrained by what the queries ask for; the engine's evaluation is not modelled.
- DealsPipeline.Pipeline.Sync: a failing transaction is taken to be rolled back as a whole.
- RateLimiter.AnswersAsFullHistory: times are reals and do not go back in lock order; RateLimiter.LaterAnswersAgreeExactly and RateLimiter.AgreesBehindSweepsExactly say what holds when they do.
- RateLimiter.NoWindowOverflows: times do not go back; RateLimiter.WindowsHoldExactly says what holds when they do.
- TelegramParser.ParserReadsTheTree: text and code buffers are kept joined instead of as lists of pieces, attributes are read beforehand, and tags that do not match up are left to the steps.
- TelegramParser.PageReadPlainly: one way for whole pages, since text lost beyond the length bound, or white space at its ends, does not show in a post; TelegramParser.PlainReadingExactly is both ways for each message.
- NotificationInbox.CapturedDeliverySurvives: encryption is an injective encoding whose decoding may fail; the copy of the stored value in memory is modelled only where it equals the one on disk.
- ExportBridge.EveryRequestIsAnsweredOnce: a worker's file writing is one outcome, reported on the UI thread.
- BrowserLifecycle.EveryRequestAnsweredOrWaiting: assumes that browser ids are not used twice and that a new context has its own address; BrowserWindows.EveryHandlerIsInStep assumes the same across handlers and that the engine reports a browser's end to the handler that was told of its start; tear-down of all browsers, rendering, input and reposting to the UI thread are not modelled.
- ValueHeap.EveryProgramIsSound: counts are unbounded, addresses are never used again, allocation succeeds, and the freeing of string and typed-list buffers is not modelled; an entry is set in a map that the caller's handles reach (ValueHeap.StoredInItselfLeaks shows what can happen to one that only a leaked cycle holds).
- ValueStore.Store.Equal: two maps are never compared; the code compares a key with a value there.
- ValueStore.Store.SetEntry: slots are sequences on the heap; growth of their arrays is modelled by itself in PtrArray.
- ValueTrees.RoundTripExactly: maps are not keys, and integers are unbounded since both sides hold 64 bits; rounding and narrowing after a number was read are not modelled.
- Building of method-call results by the plugin, the Windows and eLinux codecs, and conversion to text.
- Key codes, windows, textures, cookies, scripts and design pages: plumbing and user interface.
