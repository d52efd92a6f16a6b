# Verified models of the cinema platform's stateful protocols

The platform is a set of Python services around Postgres, Redis, Kafka and Elasticsearch. This project models the
parts of it whose correctness depends on whole runs, and proves what those runs keep. Each external store is a map, a
set, a log or a table with the operations the code uses; each `await` at which another call can act is a step of a
state machine. Code that changes state is a class whose methods are proved against the specification functions that
the theorems about runs are stated with.

`dafny verify dfyconfig.toml` checks everything.

| file | models |
|---|---|
| `SlidingWindow.dfy` | the in-memory limiter, and the reference limiter that forgets nothing |
| `AuthRateLimit.dfy` | the auth endpoints' own limiter over a nested map |
| `RateLimitMiddleware.dfy` | the two-tier dispatcher with its `remaining` and `reset` headers |
| `RedisRateLimiter.dfy` | the Redis sorted-set limiter, one call at a time |
| `RedisLimiterConcurrent.dfy`, `RedisLimiterWorstCase.dfy` | the same limiter with its commands interleaved and its key expiring in between; runs that reach its bounds |
| `MovieEvents.dfy`, `EventConsumer.dfy` | catalog events, the search consumer with a rewindable offset, the index writers |
| `SearchCache.dfy`, `CacheCoherence.dfy` | the result cache with its SCAN invalidation, alone and under every interleaving |
| `Catalog.dfy`, `Publication.dfy` | catalog rows and their events, in publication order and without any order |
| `CacheKey.dfy`, `SearchQuery.dfy` | the printed cache key; the query builder and paging |
| `PaymentProtocol.dfy`, `PaymentService.dfy` | checkout calls and webhooks as steps; the service's methods |
| `TokenProtocol.dfy`, `AuthService.dfy` | the refresh-token life cycle; the token services |
| `Transcoding.dfy` | the ten-minute transcoding job |
| `WatchProgress.dfy` | the write-through watch-progress cache |

## What the proofs found

- The Redis limiter is not atomic. With at most c calls in flight a window can let through `limit + 3c - 1` requests
  (`2c` for limit 1) and no more, because calls may wait while the key expires under them. A run reaches that worst case
  for every limit, c and window (`WindowOvershoot`, `WindowOvershootIsReached`). As long as the key expires only while
  no call is in flight the most is `limit + 2 (c - 1)`, so sequential calls keep the limit (`UndisturbedOvershoot`,
  `UndisturbedOvershootIsReached`). The set itself never holds more than `limit + c - 1` (`OvershootBound`).
- Redis and memory answer every call alike exactly until two calls with one clock reading are both let through
  (`AnswersAlikeIffNoTwin`): the set then holds one member for two calls, and the very next answer differs as long as
  that reading is in its window (`TwinShows`).
- At the moment `X-RateLimit-Reset` names, the window is still occupied unless the deciding clock reading was a whole
  second (`ResetIsExactOnWholeSeconds`). The class comment of the in-memory limiter speaks of a fixed window; the code
  slides.
- The payment service's README promises that a retry with the same idempotency key returns the same payment. It does
  exactly when Redis answers and still holds the key; otherwise the unique constraint refuses the call
  (`RetryOutcome`, and a run in `ExpiredKeyRefusesRetry`). In both cases nothing is created.
- Watch progress is cached under the text of the movie id but stored under its value, and a URL may spell one UUID in
  several ways. The service is a plain map exactly when a movie is always spelled alike (`PlainMapIffOneSpelling`).
- A transcoding task is sent before its row is updated, and a retried task sends its list again, so each failed update
  and each retry costs one more send; without them no video is sent twice (`SendsAreAccountedFor`).
- A search that reads the index, waits out a whole invalidation and stores its answer afterwards leaves a stale entry
  that nothing will remove before it expires (`OverlapLeavesStaleEntry`). Because the index is written without a
  refresh, so does a search that begins after the invalidation but before the write shows (`LagLeavesStaleEntry`). With
  nothing pending, a stale entry is always one that a search which had not seen the write stored after its invalidation
  had begun (`StaleOnlyByOverlap`).
- Rewinding all topics together is harmless once the rest is read again (`RedeliveryConverges`). Rewinding one topic
  alone is harmless exactly when the last event it replays for each movie says nothing new (`TopicReplayHarmlessIff`); a
  replayed `created` event undoes an update (`ReplayedCreationUndoesUpdate`).
- An update event carries neither rating nor publication date, and the consumer replaces the whole document: from then
  on the index shows no rating, and no date of an earlier publication, though the row keeps both
  (`UpdatesWipeTheIndex`).
- A search answer that shows a publication date is never cached: JSON cannot print the date, and the failure is
  swallowed (`SearchMovies`).
- Following `total_pages` gives every result exactly when the last page ends within the index's cap of 10,000
  (`ReadsAllIffCapped`).

## Model

| member | source | states |
|---|---|---|
| `SlidingWindow.InMemoryRateLimiter.IsAllowed` | shared/python-common/middleware/rate_limiter.py:73-111 | a call leaves the key's log and gives the answer the specification gives; no other key's log changes |
| `SlidingWindow.InMemoryRateLimiter.Reset` | shared/python-common/middleware/rate_limiter.py:113-116 | a reset forgets exactly one key |
| `SlidingWindow.WindowIsPrunedTotal` | shared/python-common/middleware/rate_limiter.py:90-98 | the sum over the pruned log is the number of past admissions inside the window |
| `SlidingWindow.DecideAgrees` | shared/python-common/middleware/rate_limiter.py:87-111 | one call of a pruning limiter whose log agrees with the full history decides as full memory would, and still agrees afterwards |
| `SlidingWindow.PruningLosesNothing` | shared/python-common/middleware/rate_limiter.py:90-106 | over every run the admitted calls are those of a limiter that keeps everything, and the pruned log holds all that any later call can see |
| `SlidingWindow.HistoryRespectsLimit` | shared/python-common/middleware/rate_limiter.py:97-106 | the limiter with full memory keeps every window within the limit |
| `SlidingWindow.WindowSafety` | shared/python-common/middleware/rate_limiter.py:87-106 | no interval (t - window, t] of any real t holds more than `limit` admitted requests |
| `SlidingWindow.VerdictsAreExact` | shared/python-common/middleware/rate_limiter.py:97-111 | every answer of every run: a call passes exactly while fewer than `limit` calls were let through in its window, `remaining` is the limit less those and itself (0 for a refused call), and `reset` is the end of its window cut to a whole second |
| `AuthRateLimit.RateLimitStorage.CheckRateLimit` | services/auth-service/app/api/v1/endpoints/auth.py:49-73 | one address and endpoint is checked and recorded; every other list in the nested map reads as before |
| `AuthRateLimit.AuthSimulatesShared` | services/auth-service/app/api/v1/endpoints/auth.py:49-73 | call for call the auth limiter is the shared limiter with window 60 |
| `AuthRateLimit.AuthWindowSafety` | services/auth-service/app/api/v1/endpoints/auth.py:49-73 | at most `max_per_minute` calls of one address to one endpoint pass in any 60 seconds |
| `RateLimitMiddleware.RateLimiterMiddleware.Dispatch` | shared/python-common/middleware/rate_limiter.py:272-325 | an excluded path touches nothing; any other request runs both tiers for its client and no other client's logs change |
| `RateLimitMiddleware.TierKeysNeverCollide` | shared/python-common/middleware/rate_limiter.py:291-307 | no client's minute or hour key is any other client's key or the other tier's |
| `RateLimitMiddleware.RemainingIsAPromise` | shared/python-common/middleware/rate_limiter.py:313-322 | after a response with `remaining = r` the next r requests pass both tiers, whenever they come |
| `RateLimitMiddleware.RemainingIsTheRest` | shared/python-common/middleware/rate_limiter.py:313-322 | `remaining` is what both logs leave of their limits, and not one more |
| `RateLimitMiddleware.RemainingIsNoLess` | shared/python-common/middleware/rate_limiter.py:313-322 | of requests at the very same readings the one after the r that remain is refused |
| `RateLimitMiddleware.MinuteTierIsARun` | shared/python-common/middleware/rate_limiter.py:290-299 | the minute tier refuses exactly what a single limiter of 60 seconds refuses over the same run |
| `RateLimitMiddleware.HourTierIsARun` | shared/python-common/middleware/rate_limiter.py:301-311 | the hour tier is a single limiter fed with what the minute tier let through, and it admits exactly the requests served |
| `RateLimitMiddleware.MinuteAdmissionsAreAccountedFor` | shared/python-common/middleware/rate_limiter.py:290-318 | minute admissions equal requests served plus requests refused by the hour tier |
| `RateLimitMiddleware.ServedWithinHourLimit` | shared/python-common/middleware/rate_limiter.py:301-318 | no hour sees more requests served than the hour limit |
| `RateLimitMiddleware.ResetHeader` | shared/python-common/middleware/rate_limiter.py:108-111 | with no new request both logs are empty exactly when both windows are over, at the latest one second past the reported reset |
| `RateLimitMiddleware.RetryAfterSuffices` | shared/python-common/middleware/rate_limiter.py:297-311 | a refused client that waits one second longer than it was told, and sends nothing meanwhile, passes the tier that refused it |
| `RateLimitMiddleware.RetryAfterIsExact` | shared/python-common/middleware/rate_limiter.py:297-311 | `Retry-After` is the window plus the whole seconds of the refused reading less those of the reading taken for the header |
| `RateLimitMiddleware.ResetIsExactOnWholeSeconds` | shared/python-common/middleware/rate_limiter.py:108-111 | at the reported reset itself both logs are empty if and only if the reading that decides it (the hour tier's, or the minute tier's without one) is a whole second |
| `RateLimitMiddleware.ResetHeaderCanBeEarly` | shared/python-common/middleware/rate_limiter.py:108-111 | a request whose reported reset comes before its window is over |
| `RedisRateLimiter.RedisRateLimiter.IsAllowed` | shared/python-common/middleware/rate_limiter.py:135-174 | the four Redis commands of one call give the specified set, expiry and answer, and touch one key |
| `RedisRateLimiter.ExpiryHidesOnlyStale` | shared/python-common/middleware/rate_limiter.py:155-169 | key expiry never hides a member that the next prune would keep |
| `RedisRateLimiter.StepRefines` | shared/python-common/middleware/rate_limiter.py:151-174 | one call on a set that represents the pruned log answers as the in-memory limiter, and the set keeps representing the log exactly unless the call is admitted with a reading the set already holds |
| `RedisRateLimiter.RedisRefinesMemory` | shared/python-common/middleware/rate_limiter.py:87-174 | for sequential calls at strictly increasing readings both backends return the same triples over every run |
| `RedisRateLimiter.SetHoldsAdmitted` | shared/python-common/middleware/rate_limiter.py:155-169 | after any run the set holds the latest reading exactly if some call with that reading was admitted |
| `RedisRateLimiter.AlikeIffNoTwin` | shared/python-common/middleware/rate_limiter.py:87-174 | for readings that never go back the set represents the log throughout a run if and only if no two calls with one reading are admitted (or the window is empty), and as long as it does the answers are equal |
| `RedisRateLimiter.TwinShows` | shared/python-common/middleware/rate_limiter.py:155-169 | once a second call with one reading is admitted, the next answers of the two backends agree if and only if that reading is out of the window |
| `RedisRateLimiter.AnswersAlikeIffNoTwin` | shared/python-common/middleware/rate_limiter.py:87-174 | for readings that never go back both backends answer every call of a run, and any call that could come next, alike if and only if no two calls with one reading are admitted (or the window is empty) |
| `RedisRateLimiter.EqualReadingsCollapse` | shared/python-common/middleware/rate_limiter.py:166-167 | equal readings share one member, and then Redis admits a call that memory refuses |
| `RedisLimiterConcurrent.LoneCallIsDecide` | shared/python-common/middleware/rate_limiter.py:151-174 | a call with nothing in between does what the sequential limiter does |
| `RedisLimiterConcurrent.RunIsSound` | shared/python-common/middleware/rate_limiter.py:155-169 | in every interleaving admitted readings differ, and the key outlives every member's window except for members whose own EXPIRE is still to come |
| `RedisLimiterConcurrent.OvershootBound` | shared/python-common/middleware/rate_limiter.py:151-169 | with prune, count and add interleaved and at most c calls in flight, set size plus admitted calls not yet added stays within limit + c - 1 |
| `RedisLimiterConcurrent.WindowOvershoot` | shared/python-common/middleware/rate_limiter.py:151-169 | whatever overlaps, stalls and expires, no interval (t - window, t] sees more than limit + 3c - 1 calls admitted, and with limit 1 no more than 2c |
| `RedisLimiterConcurrent.UndisturbedOvershoot` | shared/python-common/middleware/rate_limiter.py:151-169 | as long as the key expires only while no call is in flight, no interval sees more than limit + 2 (c - 1) |
| `RedisLimiterWorstCase.WindowOvershootIsReached` | shared/python-common/middleware/rate_limiter.py:151-169 | for every limit, c and window some run admits exactly that many calls in one window |
| `RedisLimiterWorstCase.UndisturbedOvershootIsReached` | shared/python-common/middleware/rate_limiter.py:151-169 | for every limit, c and window some run in which no key expires under a call admits limit + 2 (c - 1) |
| `SearchCache.RedisCache.Scan` | services/search-service/app/core/cache.py:81 | a SCAN call returns some matching keys, perhaps again, and by the end of the walk every key that was there all along |
| `SearchCache.RedisCache.InvalidateMovie` | services/search-service/app/core/cache.py:70-89 | the cursor loop removes every cached search, however the server walks its table, and never another key; if Redis fails half-way the rest stays and the failure is swallowed |
| `SearchCache.RedisCache.GetSearchResults` | services/search-service/app/core/cache.py:35-52 | a hit is what is held alive under the prefixed hash; a disabled cache, an entry past its time, an empty value or a failed read is a miss |
| `SearchCache.RedisCache.SetSearchResults` | services/search-service/app/core/cache.py:54-68 | one key is written with 300 seconds to live, unless the cache is off, the write fails, or the response shows a date that JSON cannot print |
| `SearchCache.InvalidatedMisses` | services/search-service/app/core/cache.py:70-89 | after an invalidation every search misses |
| `MovieEvents.DocumentKeepsPayload` | services/search-service/app/kafka_consumer/consumer.py:165-188 | a document holds each payload value under its own name; where the payload is silent the title is empty, the lists are empty, the movie is hidden and the rest is null |
| `MovieEvents.EarlyCopyIsAbsorbed` | services/search-service/app/kafka_consumer/consumer.py:81-188 | delivering an event early changes nothing once it is delivered again, whatever came in between |
| `MovieEvents.CopyOfComingEventIsAbsorbed` | services/search-service/app/kafka_consumer/consumer.py:81-188 | an extra copy of any event still to come is absorbed by the rest of the log |
| `MovieEvents.RedeliveryConverges` | services/search-service/app/kafka_consumer/consumer.py:69-188 | with any number of rewinds of the log to any earlier offset, consuming the rest of it gives the index of one in-order pass |
| `MovieEvents.TopicReplayHarmlessIff` | services/search-service/app/kafka_consumer/consumer.py:33-188 | replaying any part of one topic leaves the index as it was if and only if the last event replayed for each movie says what its document says already |
| `MovieEvents.ReplayedCreationUndoesUpdate` | services/search-service/app/kafka_consumer/consumer.py:33-188 | replaying a creation after its update brings the old title back |
| `EventConsumer.SearchService.SearchMovies` | services/search-service/app/services/search_service.py:44-91 | whatever fails in Redis, as long as cached searches are what the index would answer now, a search through the cache answers what the index answers, and they stay so; an answer from the index is kept for 300 seconds, and a dated one is never cached |
| `EventConsumer.SearchService.IndexMovie` | services/search-service/app/services/search_service.py:257-277 | the document is put under its id and, as long as Redis works, the cached searches go, so what stays cached is what the index would answer |
| `EventConsumer.SearchService.UpdateMoviePublishStatus` | services/search-service/app/services/search_service.py:279-304 | two fields of an existing document change; a missing document changes neither index nor cache |
| `EventConsumer.SearchService.DeleteMovie` | services/search-service/app/services/search_service.py:306-322 | an existing document goes with the cached searches; a missing one changes nothing |
| `EventConsumer.MovieEventConsumer.ProcessMessage` | services/search-service/app/kafka_consumer/consumer.py:81-163 | a created or updated event puts the whole document, a published one sets flag and date of an existing document (the consumer's clock where it brings no date), anything else changes nothing; as long as Redis works an event that changes the index leaves no cached search |
| `EventConsumer.MovieEventConsumer.ConsumeMessages` | services/search-service/app/kafka_consumer/consumer.py:69-79 | the loop folds the messages in order |
| `CacheCoherence.Invariant` | services/search-service/app/services/search_service.py:44-304 | in every interleaving of searches, writes, index refreshes and invalidations cached answers are genuine evaluations of some index version, and a scan still owes every key that was there when it began |
| `CacheCoherence.LoneSearchFills` | services/search-service/app/services/search_service.py:44-91 | a search with nothing in between stores what the index shows, unless it shows a date |
| `CacheCoherence.LoneSweepEmpties` | services/search-service/app/services/search_service.py:257-304 | a write and its invalidation with nothing in between leave no cached search |
| `CacheCoherence.StaleOnlyByOverlap` | services/search-service/app/services/search_service.py:44-304 | a cached answer that differs from an uncached one, or from the answer after any later write, was read before a write was visible, and the invalidation of every such write is pending or had begun when the answer was stored |
| `CacheCoherence.CachedSearchIsFresh` | services/search-service/app/services/search_service.py:44-304 | when every search that stores has seen all writes whose invalidation has begun, and nothing is pending, search with and without the cache agree, and what is cached has seen the last write |
| `CacheCoherence.OverlapLeavesStaleEntry` | services/search-service/app/services/search_service.py:44-304 | a search that waits out a whole invalidation does leave a stale answer with nothing pending |
| `CacheCoherence.LagLeavesStaleEntry` | services/search-service/app/services/search_service.py:257-304 | so does a search that begins after a whole invalidation, while the index has not refreshed |
| `Catalog.MovieService.CreateMovie` | services/catalog-service/app/services/movie_service.py:104-153 | the row has the columns given and is unpublished, and its event is sent or lost |
| `Catalog.MovieService.UpdateMovie` | services/catalog-service/app/services/movie_service.py:155-185 | column by column: a given value replaces the old one, an absent one keeps it, and publication stays; the event carries the new row, and a missing movie changes nothing |
| `Catalog.MovieService.PublishMovie` | services/catalog-service/app/services/movie_service.py:187-215 | an unpublished movie gets the flag and the moment and nothing else; a missing or published one changes nothing and sends nothing |
| `Catalog.CellByHistory` | services/catalog-service/app/services/movie_service.py:104-185 | after any operations every column of a row holds what the last creation or update that gave it a value gave it |
| `Catalog.PublicationByHistory` | services/catalog-service/app/services/movie_service.py:187-215 | a movie is published exactly when some operation published it, and keeps that moment |
| `Catalog.NoticesSay` | services/catalog-service/app/services/kafka_producer.py:79-124 | the payloads of the three kinds of event, of which an update leaves the rating null |
| `Catalog.NoticeCarriesRow` | services/catalog-service/app/services/kafka_producer.py:79-124 | each kind of event brings a document that showed the row before to show the row after, on title, year and is_published |
| `Catalog.AgreementInvariant` | services/catalog-service/app/services/movie_service.py:104-215 | after any operations one pass over the log gives exactly one agreeing document for each row |
| `Catalog.DrainedIndexAgrees` | services/catalog-service/app/services/movie_service.py:104-215 | whenever the log is drained, after any rewinds, each document's title, year and is_published equal the catalog row's |
| `Catalog.UpdatesWipeTheIndex` | services/search-service/app/kafka_consumer/consumer.py:81-188 | a drained index shows a movie's rating only until its first update and its publication date only until the next one |
| `Publication.StepMakesNoFalseClaim` | services/catalog-service/app/services/movie_service.py:155-215 | no step of any overlapping call makes, sends or delivers a claim of publication that is not true |
| `Publication.PublicationSafety` | services/search-service/app/kafka_consumer/consumer.py:110-188 | under any loss, repetition and reordering an index document with is_published true implies a published row |
| `Publication.LoneCreateIsCreate` | services/catalog-service/app/services/movie_service.py:104-153 | a creation with nothing in between is the catalog's creation |
| `Publication.LoneUpdateIsUpdate` | services/catalog-service/app/services/movie_service.py:155-185 | an update with nothing in between is the catalog's update |
| `Publication.LonePublishIsPublish` | services/catalog-service/app/services/movie_service.py:187-215 | a publication with nothing in between is the catalog's publication |
| `Publication.OverlappingUpdatesMerge` | services/catalog-service/app/services/movie_service.py:161-173 | of two updates that loaded the same row the later undoes the earlier only in the columns it changes itself, and a publication in between stays |
| `CacheKey.EscapeReadsBack` | services/search-service/app/core/cache.py:92-95 | the ASCII escapes of JSON strings, surrogate pairs included, form a prefix code |
| `CacheKey.LiteralReadsBack` | services/search-service/app/core/cache.py:92-95 | a printed string literal determines the string and what follows it |
| `CacheKey.ValueReadsBack` | services/search-service/app/core/cache.py:92-95 | a printed filter value determines the value and what follows it |
| `CacheKey.FieldsReadBack` | services/search-service/app/core/cache.py:92-95 | a printed object determines its fields |
| `CacheKey.FiltersAreSorted` | services/search-service/app/services/search_service.py:28-38 | the filters are printed in the order of their names, each with its own value |
| `CacheKey.DecimalInjective` | services/search-service/app/core/cache.py:92-95 | decimal text determines the number |
| `CacheKey.NoInnerOpening` | services/search-service/app/core/cache.py:92-95 | the text that opens the object occurs in it only at its start, whatever its strings contain |
| `CacheKey.NotAProperSuffix` | services/search-service/app/core/cache.py:92-95 | no unescaped query can make one object's text end inside another's |
| `CacheKey.SomePrinterReadsBack` | services/search-service/app/core/cache.py:92-95 | any finite choice of ratings has a printer that tells them apart, so the two theorems below speak of something |
| `CacheKey.KeyTextInjective` | services/search-service/app/services/search_service.py:28-42 | when printing tells the ratings of two requests apart, the requests share the text before hashing if and only if they have the same query (absent or empty alike) and the same filters |
| `CacheKey.SharedKeySharesAnswer` | services/search-service/app/services/search_service.py:28-62 | requests that share a cached answer build the same query, want the same documents and ask for the same page |
| `SearchQuery.BuildSearchQuery` | services/search-service/app/services/search_service.py:95-180 | the query built step by step finds exactly the documents the request asks for, and sorts by rating and year exactly when there is no text |
| `SearchQuery.QueryMeansRequest` | services/search-service/app/services/search_service.py:95-180 | for every request and document the built bool/nested/terms/range query holds exactly when each given field of the request is met: both year bounds and both rating bounds included, absent, empty and zero asking for nothing |
| `SearchQuery.CeilingIsExact` | services/search-service/app/services/search_service.py:73 | total_pages is the least number of pages that hold all results |
| `SearchQuery.PagesPartition` | services/search-service/app/services/search_service.py:53-81 | pages 1 to total_pages give every result once and in order, each has something on it, every later page is empty |
| `SearchQuery.ReadsAllIffCapped` | services/search-service/app/services/search_service.py:53-81 | with the index's cap, a reader who follows total_pages gets every page and every result if and only if the last page ends within the cap |
| `PaymentProtocol.RunIsSound` | services/payment-service/app/services/payment_service.py:64-147 | over every interleaving keys and provider ids are unique, each unfinished call owns its row alone, and every cached or returned payment is complete |
| `PaymentProtocol.CheckoutIdempotency` | services/payment-service/app/services/payment_service.py:64-147 | for each non-empty key at most one row and one provider call, and all calls that return give the same complete payment, whatever overlaps, expires, fails or crashes |
| `PaymentProtocol.StepGrowsRows` | services/payment-service/app/services/payment_service.py:64-330 | user, amount, currency, plan and key of a row never change, and provider id and checkout page are set at most once |
| `PaymentProtocol.RowWasBegun` | services/payment-service/app/services/payment_service.py:64-98 | every payment has the user, plan and key some call began with, at 299, 599 or 899 roubles for basic, premium or family, for 30 days |
| `PaymentProtocol.BilledInWords` | services/payment-service/app/services/payment_service.py:118-133 | a complete answer sets id and page and leaves the payment pending; one without confirmation, or a failure, fails it |
| `PaymentProtocol.ProviderDataByHistory` | services/payment-service/app/services/payment_service.py:101-133 | a payment has the provider id and page of the answer committed for it, and neither before |
| `PaymentProtocol.StatusByHistory` | services/payment-service/app/services/payment_service.py:118-330 | the status of a payment is what the last webhook that wrote it left, and until one does it is pending, or failed if the provider's answer was |
| `PaymentProtocol.OnlySucceedSucceeds` | services/payment-service/app/services/payment_service.py:149-183 | a payment becomes SUCCEEDED exactly by a success webhook that finds it in another status |
| `PaymentProtocol.WebhookAccounting` | services/payment-service/app/services/payment_service.py:165-202 | activations equal transitions into SUCCEEDED, and so do invoices plus suspended handlers plus failed invoice inserts |
| `PaymentProtocol.InvoicesAgreeWithPayments` | services/payment-service/app/services/payment_service.py:368-391 | every invoice agrees with its payment on user, plan, amount and currency, though its handler was suspended in between |
| `PaymentProtocol.PendingIsLeftForGood` | services/payment-service/app/services/payment_service.py:118-325 | a payment that has left PENDING never returns to it |
| `PaymentService.StoredKeyAnswers` | services/payment-service/app/core/redis_client.py:38-84 | a key that was stored answers the same payment on a retry, whatever plan the retry asks for |
| `PaymentService.PaymentService.StoreIdempotencyKey` | services/payment-service/app/core/redis_client.py:62-84 | a Redis failure is swallowed and changes nothing |
| `PaymentService.PaymentService.CreateProviderPayment` | services/payment-service/app/services/payment_service.py:101-133 | the provider is called once, and its answer or failure is written to the row; an answer without its confirmation leaves the provider id on a failed row |
| `PaymentService.PaymentService.CreateRecord` | services/payment-service/app/services/payment_service.py:74-98 | an unknown plan or a taken key is refused; otherwise the row is this user's, for this plan and key, at the plan's price |
| `PaymentService.PaymentService.CreateCheckoutSession` | services/payment-service/app/services/payment_service.py:64-147 | an uninterrupted call answers and leaves behind what the protocol's checkout steps do, and what it adds is this user's payment for this plan and key |
| `PaymentService.CheckoutInWords` | services/payment-service/app/services/payment_service.py:64-147 | what those are, field by field: the answer, the row, its status, the one provider call and the stored key, for a remembered key, a refusal, a complete and an incomplete answer |
| `PaymentService.PaymentService.ProcessSuccessfulPayment` | services/payment-service/app/services/payment_service.py:165-193 | a payment with that provider id becomes SUCCEEDED with one more activation and a handler that waits; a repeated success is answered at once |
| `PaymentService.PaymentService.ResumeSuccess` | services/payment-service/app/services/payment_service.py:195-202 | after its wait the handler writes one invoice for the payment it read, or records the failed insert |
| `PaymentService.PaymentService.ProcessFailedPayment` | services/payment-service/app/services/payment_service.py:220-249 | a known payment becomes FAILED, an unknown one changes nothing |
| `PaymentService.PaymentService.ProcessCancelledPayment` | services/payment-service/app/services/payment_service.py:261-281 | a known payment becomes CANCELLED, an unknown one changes nothing |
| `PaymentService.PaymentService.ProcessRefund` | services/payment-service/app/services/payment_service.py:294-330 | the provider is asked for the amount given, or for the whole payment when it is absent or zero, and an accepted refund makes the payment REFUNDED |
| `PaymentService.PaymentService.HandleWebhook` | services/payment-service/app/webhooks/yoomoney_webhook.py:47-197 | an event acts on the payment its provider id names, by its kind; a bad signature and a body that is not JSON are refused, and an unknown kind, a missing id or a malformed amount changes nothing |
| `PaymentService.RunCheckoutHasEffect` | services/payment-service/app/services/payment_service.py:64-147 | the protocol's checkout steps run in order have the effect the method is specified by |
| `PaymentService.CheckoutIsARun` | services/payment-service/app/services/payment_service.py:64-147 | what the method does extends any run of the protocol to a run, so all properties of runs hold of it |
| `PaymentService.RetryOutcome` | services/payment-service/README.md:222-243 | in every run, a retry answers the payment of its key if and only if Redis answers and still holds the key, and is refused otherwise; it never creates a row or calls the provider |
| `PaymentService.ExpiredKeyRefusesRetry` | services/payment-service/README.md:222-243 | a run in which a payment was returned for a key and the retry is refused |
| `TokenProtocol.PatternFindsOwnKeys` | services/auth-service/app/services/redis_service.py:54-77 | a user's key pattern finds all of that user's keys and none of anybody else's |
| `TokenProtocol.KeyInjective` | services/auth-service/app/services/redis_service.py:54-65 | user and token id can be read back from a key |
| `TokenProtocol.MintedByHistory` | services/auth-service/app/services/jwt_service.py:28-111 | a token exists exactly when a step minted it, with 900 (access) or 604800 (refresh) seconds from that second on |
| `TokenProtocol.StoreAcceptsByHistory` | services/auth-service/app/services/redis_service.py:79-206 | Redis confirms a token exactly when it was stored no more than 604800 seconds ago and nothing revoked it since |
| `TokenProtocol.ActiveByHistory` | services/auth-service/app/services/auth_service.py:200-210 | a user is active exactly when the last change of its row made it so |
| `TokenProtocol.RefreshByHistory` | services/auth-service/app/services/auth_service.py:176-219 | a refresh is accepted exactly when the token was minted as a refresh token and stored, no more than seven days before its JWT and its entry were looked at, no logout came in between, and the last word on the user's row was active |
| `TokenProtocol.RefreshWithoutOverlap` | services/auth-service/app/services/auth_service.py:176-270 | when each logout-all runs at once, a refresh is accepted exactly when the token was minted and stored in the last seven days, the last word on the user's row is active, and no logout of it or logout-all of its user came since |
| `TokenProtocol.RevokedForGood` | services/auth-service/app/services/auth_service.py:237-270 | a revoked token is never accepted again |
| `TokenProtocol.LogoutAllEndsSessions` | services/auth-service/app/services/redis_service.py:171-182 | a logout-all ends every session stored before it began, whatever is stored or deleted while it scans |
| `TokenProtocol.OthersUntouched` | services/auth-service/app/services/redis_service.py:154-182 | ending one user's sessions leaves every other user's tokens as they were |
| `TokenProtocol.WhichExpiresFirst` | services/auth-service/app/services/jwt_service.py:85-109 | neither expiry makes the other redundant: which of them ends a session depends on how long storing took |
| `AuthService.RedisService.StoreRefreshToken` | services/auth-service/app/services/redis_service.py:79-113 | one key gets the token with a life of seven days |
| `AuthService.RedisService.GetRefreshToken` | services/auth-service/app/services/redis_service.py:115-134 | an expired entry reads as absent |
| `AuthService.RedisService.VerifyRefreshToken` | services/auth-service/app/services/redis_service.py:184-206 | a token is confirmed exactly when its live entry holds that very token |
| `AuthService.RedisService.DeleteRefreshToken` | services/auth-service/app/services/redis_service.py:136-156 | one key goes, and the answer says whether a live entry was there |
| `AuthService.RedisService.DeleteAllUserTokens` | services/auth-service/app/services/redis_service.py:158-182 | exactly the user's live entries go, and they are counted once each however often SCAN repeats a key |
| `AuthService.JwtService.CreateAccessToken` | services/auth-service/app/services/jwt_service.py:28-70 | the new token verifies as an access token of that user through 900 whole seconds after the second it is made in, and never as a refresh token |
| `AuthService.JwtService.CreateRefreshToken` | services/auth-service/app/services/jwt_service.py:72-111 | the new token verifies as a refresh token with its user and id through 604800 whole seconds after the second it is made in, and never as an access token |
| `AuthService.AuthService.CreateTokensForUser` | services/auth-service/app/services/auth_service.py:308-339 | issuing is two mints and one store of the protocol |
| `AuthService.AuthService.RefreshAccessToken` | services/auth-service/app/services/auth_service.py:176-219 | each of the three refusals is given exactly when its check is the first to fail, an absent or deactivated user included; an accepted refresh mints one access token of 900 seconds and changes nothing else |
| `AuthService.AuthService.Logout` | services/auth-service/app/services/auth_service.py:237-254 | a token that no longer verifies is refused and nothing is deleted; otherwise its entry goes; access tokens verify as before |
| `AuthService.AuthService.LogoutAllSessions` | services/auth-service/app/services/auth_service.py:256-270 | the call is the protocol's logout-all and returns the number of sessions ended; access tokens verify as before |
| `Transcoding.TranscodingDag.GetVideosNeedingTranscoding` | etl/airflow/dags/video_transcoding.py:53-90 | the scan with its limit hands on the front of the queue of waiting videos |
| `Transcoding.PicksTheOldest` | etl/airflow/dags/video_transcoding.py:54-68 | a waiting video is picked exactly when fewer than ten older ones wait, and then every older one is picked too |
| `Transcoding.PicksWaiting` | etl/airflow/dags/video_transcoding.py:54-68 | only uploaded videos without a status are picked, at most ten, and while there is room all of them |
| `Transcoding.TranscodingDag.ScheduleTranscodingTasks` | etl/airflow/dags/video_transcoding.py:101-164 | the loop sends and updates as specified whatever sends and updates fail, first time or retried, and counts sends whose update held |
| `Transcoding.TranscodingDag.MonitorTranscodingProgress` | etl/airflow/dags/video_transcoding.py:235-301 | a row in progress whose task is ready becomes completed exactly if the task succeeded and failed exactly if not, unless its update fails; no other row changes, and outcomes are counted either way |
| `Transcoding.DispatchChanges` | etl/airflow/dags/video_transcoding.py:123-160 | a run or retry schedules exactly the listed videos whose send and update succeed and touches no other row |
| `Transcoding.StatusOnlyAdvances` | etl/airflow/dags/video_transcoding.py:123-293 | transcoding_status only goes from NULL to scheduled to completed or failed, whatever fails or is retried |
| `Transcoding.OutcomeByHistory` | etl/airflow/dags/video_transcoding.py:235-293 | in every run a video is completed only if a poll found its task successful, and failed only if one found it failed |
| `Transcoding.TasksAreTheirOwn` | etl/airflow/dags/video_transcoding.py:123-156 | the task a row holds is the number of a send of that very video |
| `Transcoding.OnlyUploadedAreSent` | etl/airflow/dags/video_transcoding.py:54-156 | no video is sent before its upload is complete |
| `Transcoding.SendsAreAccountedFor` | etl/airflow/dags/video_transcoding.py:123-156 | a video's sends are its failed updates, its sends by retries when already past waiting, and one if it is past waiting |
| `Transcoding.OnlyRetriesResend` | etl/airflow/dags/video_transcoding.py:54-68 | only a retried task sends a video that is past waiting |
| `Transcoding.TurnComes` | etl/airflow/dags/video_transcoding.py:54-68 | a video behind r older ones moves up ten places a run and leaves the queue in run r / 10 + 1, however many newer ones come |
| `Transcoding.SentInItsTurn` | etl/airflow/dags/video_transcoding.py:54-156 | it is sent exactly once, in that run |
| `WatchProgress.KeyInjective` | services/streaming-service/app/core/cache.py:37-51 | user and movie text can be read back from a cache key |
| `WatchProgress.TableHasOneRowEach` | services/streaming-service/app/services/streaming_service.py:139-167 | at most one row for each user and movie, in every run |
| `WatchProgress.ReadsAsPlainMap` | services/streaming-service/app/services/streaming_service.py:93-173 | with entries expiring at any moment and reads failing, but no write failing, a reader gets the last position written or 0 |
| `WatchProgress.TwoSpellingsComeApart` | services/streaming-service/app/services/streaming_service.py:93-137 | two spellings of one movie id give a run in which a reader gets an older position |
| `WatchProgress.PlainMapIffOneSpelling` | services/streaming-service/app/services/streaming_service.py:93-137 | over a set of spellings the service is a plain map if and only if no two of them read as one movie |
| `WatchProgress.ReadsOnlyWhatWasWritten` | services/streaming-service/app/services/streaming_service.py:93-173 | under any write failures a reader gets an error, 0, or a position once written for that user and movie |
| `WatchProgress.RedisCache.GetWatchProgress` | services/streaming-service/app/core/cache.py:34-46 | a Redis failure reads as a miss |
| `WatchProgress.RedisCache.SetWatchProgress` | services/streaming-service/app/core/cache.py:48-67 | one key is written, or none when Redis fails |
| `WatchProgress.StreamingService.SyncProgressToDb` | services/streaming-service/app/services/streaming_service.py:139-173 | the pair's row is updated or added; a bad id, a position too wide or a database failure changes nothing |
| `WatchProgress.StreamingService.UpdateProgress` | services/streaming-service/app/services/streaming_service.py:93-108 | the call is the cache write and the row write of one update |
| `WatchProgress.StreamingService.GetProgress` | services/streaming-service/app/services/streaming_service.py:110-137 | the answer and the refilled cache are those of one read |
| `WatchProgress.StreamingService.EndStream` | services/streaming-service/app/services/streaming_service.py:175-182 | ending a stream is an update with the final position |

## Left out

- Numbers: clock readings, amounts and ratings are reals, so float rounding is not modelled. The page count is the
  exact integer ceiling, which `math.ceil` of a float quotient misses only for totals beyond its precision.
- Cryptography: tokens are unforgeable records, the key hash is taken to be injective, UUIDs are fresh.
- Redis limiter members: `str(now)` is identified with the reading itself.
- Limiter runs contain no `reset`. The dispatcher is proved over the in-memory backend; `RedisRefinesMemory` and
  `AnswersAlikeIffNoTwin` say when its per-key answers carry over to Redis. The limit header and the client-key function
  are left out.
- `RedisLimiterConcurrent.WindowOvershoot`: the clients and Redis share one clock, readings strictly increase, and no
  Redis command of a call fails.
- `MovieEvents.RedeliveryConverges`: takes the three topics as one log with one offset; `TopicReplayHarmlessIff` says
  when rewinding one topic alone is harmless.
- Consumer: documents are compared with all readings of the consumer's clock identified. Events without a movie id,
  for which Elasticsearch would choose an id, and failures of Elasticsearch are not modelled.
- `Catalog.DrainedIndexAgrees`: takes the three topics in one common order, because without it agreement does not
  hold; `Publication.PublicationSafety` assumes no order at all.
- Catalog rows have the fields that `UpdateMovie` shows; genres, actors, directors and the other columns, and the
  catalog's own cache, are left out. Of a document, title, year and flag track the catalog (`DrainedIndexAgrees`) and
  rating and date do until an update (`UpdatesWipeTheIndex`); the events carry nothing else.
- `EventConsumer.SearchService.SearchMovies`: runs alone, and an index write shows to it at once; overlap and refresh
  lag are the subject of `CacheCoherence.dfy`, where an entry may expire at any moment.
- `CacheCoherence.StaleOnlyByOverlap`: an invalidation that fails half-way counts as pending for good. One store stands
  for the cached searches, whose other keys no operation here touches.
- Cache key: the ratings in play print as texts that tell them apart, as the shortest text of a float does, and strings
  have no lone surrogates.
- Query: full-text matching and scoring are left abstract; autocomplete is left out. The cap on results is the default
  of Elasticsearch for both the reported total and the depth of paging.
- `PaymentProtocol.WebhookAccounting`: a success handler reads and writes the status in one step, as on one event loop
  in one process. Two replicas of the service could both read a payment before either writes it, and then both activate.
- Payments: the provider's ids are taken to be fresh; database failures other than the unique key and the invoice
  insert, and the subscription calls made after a failed payment or a refund, are left out. Refunds are not guarded
  in the code and no claim is made that they are.
- `PaymentService.RetryOutcome`: the price and plan of the retry are not compared with the payment's, as the code does
  not compare them.
- Tokens: registration and login up to the moment tokens are made, and what an access token then opens, are left out.
- Transcoding: runs do not overlap (a retry belongs to its own run, before that run polls), upload times are distinct,
  thumbnails and the workers themselves are left out. A video that arrives while a run dispatches counts as arriving
  after it.
- Watch progress: calls are sequential, and the events published to Kafka are left out.
- HTTP routing, schemas, logging, connection handling, profiles, favourites, notifications, analytics, the bulk
  reindex and the transcoding workers: no state that a whole-run property would be about.
