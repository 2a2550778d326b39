# Kernels of the market backend, modelled and proved

This project models the parts of the backend where an interleaving, a rewriting step or an
accumulation can silently go wrong, and proves what each of them promises, for every input, every
run or every reachable state.

- **Email delivery** (`EmailStore`, `EmailWorker`, `EmailNoLoss`, `EmailTwoWorkers`, `EmailBudget`,
  `EmailProgress`, `EmailRetry`, `EmailQueue`, `EmailDelivery`, `EmailLoops`). A worker is a step
  machine whose steps are single Redis, Mongo and provider commands; any command may fail with or
  without effect and the worker may crash between any two. The queue object and the service are classes
  over the same lists, and what they do in one call is proved to be a run of the machine. With one
  worker no interleaving loses a job; with two one can, and a reachable state shows it. Without crashes
  every job of any number is accepted or dead-lettered after a number of commands computed from the
  jobs on the lists, provided a read of the delayed set finds a due member while the set is not empty.
- **Price fan-out and demand counting** (`Utf16`, `SymbolKey`, `PriceFanout`, `PriceCoherence`,
  `PriceServer`, `PriceTold`, `Ticker`). Batches, dirty symbols, the debounced flush, subscriptions,
  closes and counter increments that land later are events of a machine; the handlers are methods of a
  class proved to take the machine's steps. The shared state is coherent over all runs, and a symbol
  that contains NUL, or a batch with an item that throws, breaks it exactly as stated.
- **Chart kernels** (`IntOrder`, `TradeBuckets`, `MarketIndex`, `MarketOhlc`, `MarketOhlcLaws`,
  `MarketRatio`, `MarketBatch`, `MarketBatchExact`). One-pass loops against group-by specifications,
  the laws of the published index in scalar and candle form, and exactly when the per-symbol and the
  batched query agree. Prices are reals.
- **Coin-term masking** (`Placeholder`, `Masking`, `MaskTokens`, `MaskRoundTrip`, `MaskLaws`,
  `MaskComplete`, `MaskPipeline`, `MaskIdentity`, `MaskExamples`) and **cached batch translation**
  (`Translation`). A text is read as a list of characters and placeholders; the string scans are proved
  to act on that list. Unmasking undoes masking exactly when the text holds no placeholder numbered
  like a masked term, and the batch refines pointwise translation.
- **Canonical JSON** (`StableJson`, `StableJsonInjective`, `JsonReader`). Two values print the same
  text exactly when they are equal up to the order of object keys, and a reader of the JSON grammar
  reads the text as the value.
- **Secondary machines**: notification pages (`Pagination`), the identifier backfill (`CoinIdentity`,
  `CoinBackfill`), exchange trade sync (`ExchangeSync`, `ExchangeLoss`), the wallet event buffer
  (`WalletBuffer`), the single-flight cache (`SingleFlight`), comment and save counters
  (`CommentForest`, `CommentAuthors`, `BoardSaves`).

Where the code keeps state in place, the model is a class whose methods are proved against functions
on values; the lemmas about runs are about those functions. I/O, clocks, random numbers and the
answers of providers are parameters: the outcome of a send, the instant a parked job falls due, the
random draw of a delay, the rows a query returns in the order its sort allows, the failures of a cache.

Where the code departs from its own description, the model follows the code:

- `src/config/env.ts:104` promises the batched trend "the same numeric output". Both trends compute their
  index from the same candles and caps, whatever is stored and asked for, if and only if the limit is
  positive or -1 and constituents that agree after upper-casing have the same cap
  (`MarketBatchExact.AlwaysSameIff`); then the series are equal (`MarketBatch.BatchedEqualsPerSymbol`).
  The service clamps the limit to 30..720 (`src/modules/chart/service.ts:396`, `:615`), so at the
  endpoint only the caps matter: a symbol listed twice with different caps beside another symbol gives
  two different series (`MarketBatchExact.RepeatedSymbolDiffers`). Below the service a limit of 0 does
  too (`MarketBatchExact.LimitZeroDiffers`). The condition is exact for the inputs of the index, not for
  its values: unequal inputs may still give one series, as when all constituents are one symbol.
- `scripts/backfill-internal-coin-ids.ts:24-27` says a second application writes nothing. It updates
  no row of a target collection, but queues every unresolved row again
  (`CoinIdentity.SecondApplyWritesIff`).
- `src/i18n/translationService.ts:36-39` realigns placeholders left to right, while masking numbers
  them in the order of the terms; around a provider that changes nothing the words come back in masking
  order (`MaskPipeline.PipelineOutput`, `MaskExamples.OrderMatters`).
- `src/jobs/exchangeConnectionSync.ts:50-89` claims a trade before it stores the event. A run leaves no
  claim unstored if and only if it does not die between a new trade's claim and its event and reaches no
  new trade that another connection has stored (`ExchangeLoss.SyncLosesNothingIff`); a trade it does
  leave is never stored later (`ExchangeLoss.LostForEver`).
- `src/modules/comment/service.ts:149-164` takes one off the article's counter for every delete, also of a
  comment that is already blanked. The counter stays the number of comments with their body if and only
  if no call of the run does that (`CommentForest.CounterIsLiveIff`).

## Model

| member | source | states |
|---|---|---|
| EmailStore.RemoveFirst | src/modules/email/email.queue.ts:39-41 | LREM with count 1 keeps every other entry and adds none |
| EmailNoLoss.OneWorkerLosesNothing | src/modules/email/email.service.ts:211-364 | in every run of one worker with crashes, restarts, failing commands, lock expiry and replays, each job ever pushed is on a list, in the delayed set, accepted or dead-lettered, and no live job is past attempt 4 |
| EmailNoLoss.StepKeepsInv | src/modules/email/emailWorker.ts:59-106 | one step of worker or environment keeps the no-loss invariant with what the pending command relies on |
| EmailNoLoss.EffectKeeps | src/modules/email/email.queue.ts:17-56 | each single command, whatever the worker sees of its result, keeps every job covered and every attempt bounded |
| EmailNoLoss.AckKeeps | src/modules/email/email.queue.ts:39-41 | an acknowledgement is safe once the job is settled or parked in the delayed set |
| EmailTwoWorkers.TwoWorkersCanLoseAJob | src/modules/email/email.queue.ts:48-56 | with two workers a reachable state has lost a job: a re-added member is erased between LPUSH and ZREM |
| EmailBudget.AtMostFiveSends | src/modules/email/email.service.ts:291-355 | in every run without crashes at most five sends per job, and a job on no list is accepted or dead-lettered |
| EmailProgress.EveryJobSettles | src/modules/email/emailWorker.ts:59-106 | from any state without crashes and with any number of jobs, once 103 commands per job on the lists and 7 more have been made, nothing being enqueued meanwhile and each read of a non-empty delayed set finding a due member, all lists are empty and every id ever enqueued is accepted or dead-lettered, whatever the provider answers and whenever locks expire |
| EmailProgress.EveryEnqueueEnds | src/modules/email/email.service.ts:211-364 | the same after any calm run of a started worker from the empty system |
| EmailProgress.CommandLowers | src/modules/email/emailWorker.ts:90-100 | every command of a calm worker, Redis, Mongo or provider, lowers a measure made of the attempts left, the jobs parked and the worker's place in its loop, or leaves all lists empty |
| EmailProgress.RunLowers | src/modules/email/emailWorker.ts:90-100 | over a whole quiet run the measure pays for every command until the lists are empty, and they stay empty |
| EmailBudget.CalmStep | src/modules/email/email.service.ts:211-364 | one calm step keeps attempt counters equal to sends made and every job in one place |
| EmailRetry.DelayBounds | src/modules/email/email.retry.ts:15-20 | every delay is within one fifth of the capped exponential back-off and at least one second |
| EmailRetry.FourRetriesWait | src/modules/email/email.retry.ts:15-20 | the four retries together wait 360000 to 540000 ms whatever the random draws |
| EmailRetry.BackoffDoubles | src/modules/email/email.retry.ts:15-20 | the back-off starts at 30 seconds and doubles with each attempt up to 30 minutes |
| EmailRetry.DelayGrows | src/modules/email/email.retry.ts:15-20 | a larger random draw never waits less, and a draw in the middle waits the back-off itself |
| EmailQueue.Queue.Enqueue | src/modules/email/email.queue.ts:17-19 | LPUSH to the queue and nothing else |
| EmailQueue.Queue.EnqueueDelayed | src/modules/email/email.queue.ts:21-23 | ZADD: one member with its score, replacing an older score |
| EmailQueue.Queue.PopBlocking | src/modules/email/email.queue.ts:25-37 | the oldest entry moves to processing and is returned, or is dropped from both when it is not JSON |
| EmailQueue.Queue.Ack | src/modules/email/email.queue.ts:39-41 | removes the entry from processing only |
| EmailQueue.Queue.PushToDlq | src/modules/email/email.queue.ts:43-46 | a new head of the dead-letter list |
| EmailQueue.Queue.PromoteDelayed | src/modules/email/email.queue.ts:48-56 | exactly the due members read move to the queue, and nothing else changes |
| EmailQueue.Queue.RequeueStuckProcessing | src/modules/email/email.queue.ts:95-103 | the oldest processing entries, up to the limit, go back to the head of the queue in order |
| EmailQueue.Queue.RequeueDlqJobById | src/modules/email/email.queue.ts:74-93 | the first matching entry among 500 leaves the dead-letter list and is queued with attempt 0; false and no change without a match |
| EmailQueue.RemoveFirstAt | src/modules/email/email.queue.ts:80-80 | removing an element by value takes out its first occurrence and only that |
| EmailQueue.Service.AcquireLock | src/modules/email/email.service.ts:93-98 | set-if-absent: acquired exactly when no lock was held |
| EmailQueue.Service.ReleaseLock | src/modules/email/email.service.ts:100-108 | deletes the lock only when it still has this owner |
| EmailQueue.Service.ProcessJob | src/modules/email/email.service.ts:211-364 | a lock collision parks the job and touches no row; otherwise the row is marked processing and then sent for an acceptance, retrying when the job is parked with one attempt more, failed for a permanent rejection and dead for the rest, with one attempt more counted, every other row as it was, and lists and locks accordingly |
| EmailQueue.ProcessedMeans | src/modules/email/email.service.ts:211-364 | the same of the shared state as a whole: rows, delayed set, dead-letter list, processing list and locks after a call in terms of what it found |
| EmailDelivery.ProcessJobIsARun | src/modules/email/email.service.ts:211-364 | what one call does in one go the step machine reaches command by command |
| EmailLoops.PromoteIsARun | src/modules/email/email.queue.ts:48-56 | pushing and removing a batch member by member leads the step machine to what the queue's promotion leaves, and to a pop |
| EmailLoops.RestoreIsARun | src/modules/email/emailWorker.ts:59-76 | before a started worker first reads the delayed set, the oldest 200 processing entries, or all when there are fewer, are back at the head of the queue in order |
| EmailLoops.ReplayIsARun | src/modules/email/email.queue.ts:74-93 | an undisturbed replay queues the newest matching dead letter with attempt 0 and takes that entry off the dead-letter list only |
| EmailLoops.PopOnlyAfterRead | src/modules/email/emailWorker.ts:90-106 | whatever fails, a worker comes to a pop only from a read that found nothing due or from the last removal of a promoted batch |
| EmailDelivery.OneRound | src/modules/email/emailWorker.ts:90-100 | promote, pop and process on a lone job: empty lists, a parked job promoted, or one dead letter |
| EmailDelivery.DeliverAlone | src/modules/email/email.service.ts:291-355 | a job alone in the system is settled after one to five sends, retried exactly on transient failures, after waits of 360000 to 540000 ms when all four retries occur |
| StableJson.SameImpliesEqualText | src/integrations/coindcx/stableJson.ts:5-15 | values equal up to key order at every depth print the same text |
| StableJsonInjective.EqualTextIffSame | src/integrations/coindcx/stableJson.ts:5-15 | two JSON values print the same text if and only if they are equal up to key order |
| JsonReader.CanonicalTextReadsBack | src/integrations/coindcx/stableJson.ts:5-15 | a reader written from the JSON grammar in literal code units reads the printed text of a value as a value equal to it up to key order, with the keys of every object in ascending code-unit order |
| JsonReader.ValueReads | src/integrations/coindcx/stableJson.ts:5-15 | the same inside any text that may follow a value, the reader stopping where the value ends |
| JsonReader.EscapeReads | src/integrations/coindcx/stableJson.ts:6-8 | a printed string reads back as the string: escapes, surrogate pairs and lone surrogates |
| JsonReader.EscapeShape | src/integrations/coindcx/stableJson.ts:6-8 | exactly which code units are escaped, and whether in two or six units |
| JsonReader.PairShape | src/integrations/coindcx/stableJson.ts:6-8 | the two halves of a character outside the basic plane are printed as they are |
| StableJsonInjective.ValuePrefixFree | src/integrations/coindcx/stableJson.ts:5-15 | a printed value is self-delimiting: followed by anything that may follow a value it determines the value and the rest |
| StableJsonInjective.QuotePrefixFree | src/integrations/coindcx/stableJson.ts:6-8 | a quoted string determines the string and what follows it, escapes included |
| StableJsonInjective.ItemsPrefixFree | src/integrations/coindcx/stableJson.ts:9-11 | a printed array body determines its items |
| StableJsonInjective.MembersPrefixFree | src/integrations/coindcx/stableJson.ts:12-14 | a printed object body determines its keys and values |
| Utf16.SortProperties | src/integrations/coindcx/stableJson.ts:13-13 | the default sort lists the same strings in ascending code-unit order |
| Utf16.AscendingUnique | src/integrations/coindcx/stableJson.ts:13-13 | an ascending listing is determined by its elements |
| SymbolKey.SplitOfJoin | src/websocket/server.ts:190-196 | splitting a joined key gives the pieces of its symbols |
| SymbolKey.PiecesExact | src/websocket/server.ts:190-196 | the pieces are the symbols exactly when no symbol contains NUL |
| PriceCoherence.EveryRunCoherent | src/websocket/server.ts:171-231 | in every state of every run: an open client's view has the latest price of each subscribed symbol unless the symbol is dirty, dirty symbols have a flush pending, and counter plus increments in flight is the number of subscribed sockets |
| PriceTold.EveryPriceWasCurrent | src/websocket/server.ts:180-215 | in every run each price in a client's view was, at that moment or before, the latest price of a symbol the client was subscribed to |
| PriceTold.PendingIff | src/websocket/server.ts:171-231 | a flush is pending exactly from a batch that no item cuts short until the timer fires |
| PriceTold.FlushSettles | src/websocket/server.ts:180-215 | the timer leaves nothing dirty, and tells open sockets only, of dirty symbols only, at the latest price |
| PriceTold.LatestFromLastItem | src/websocket/server.ts:221-227 | after a batch the latest price of a symbol is that of the last item that names it, or the one before |
| PriceCoherence.FlushMatchesNaiveFilter | src/websocket/server.ts:180-215 | for NUL-free symbols the grouped flush sends each client what a filter by its own symbols would |
| PriceCoherence.FlushServesExactlyNulFree | src/websocket/server.ts:190-203 | a flush brings a client up to date, whatever changed, if and only if none of its symbols contains NUL |
| PriceCoherence.ScheduleLostExactly | src/websocket/server.ts:217-231 | a batch leaves dirty symbols without a pending flush exactly when none was pending, an item threw and an item before it named a symbol |
| PriceCoherence.LandedCounterIsDemand | src/websocket/server.ts:250-272 | once increments have landed the counter of a symbol is its number of subscribed sockets |
| PriceCoherence.RunKeepsBalanced | src/websocket/server.ts:626-646 | counter plus increments in flight equals subscribed sockets in every run, with no assumption on messages |
| PriceCoherence.SubscribersChange | src/websocket/server.ts:256-272 | replacing or removing one socket's symbols changes each symbol's demand by the announced difference |
| PriceServer.Server.ApplyRedisPricesMessage | src/websocket/server.ts:217-231 | latest prices and dirty symbols after the items before a throwing one; a flush is scheduled only when none threw |
| PriceServer.Server.SchedulePriceFlush | src/websocket/server.ts:171-178 | a flush is pending afterwards, and nothing else changes |
| PriceServer.Server.GroupClients | src/websocket/server.ts:185-193 | every open client with symbols is in exactly the group whose key reads back as its pieces |
| PriceServer.Server.UpdatesFor | src/websocket/server.ts:196-203 | the changed prices of the key's symbols, each at its latest value |
| PriceServer.Server.SendToGroup | src/websocket/server.ts:204-213 | merges the updates into the views of the group's open clients and no other |
| PriceServer.Server.FlushPriceUpdates | src/websocket/server.ts:180-215 | the state after a flush, client by client |
| PriceServer.Server.FlushTimerFires | src/websocket/server.ts:174-177 | the timer callback is the flush step of the machine |
| PriceServer.Server.ReplaceClientSymbols | src/websocket/server.ts:256-272 | the client's set becomes the normalised list, and the increments sent add up to the change of every symbol's demand |
| PriceServer.Server.SendFilteredSnapshot | src/websocket/server.ts:274-283 | an open client's view becomes the latest prices of its symbols |
| PriceServer.Server.SubscribeMessage | src/websocket/server.ts:538-545 | the handler takes the subscribe step of the machine |
| PriceServer.Server.CloseHandler | src/websocket/server.ts:626-646 | the handler takes the close step: every subscription is withdrawn once |
| Ticker.DesiredIsDemand | src/services/binanceTickerIngestion.ts:225-239 | once increments have landed the wanted symbols are the baseline and all subscriptions |
| Ticker.Chunk | src/services/binanceTickerIngestion.ts:26-32 | consecutive non-empty groups that concatenate to the list, all full but the last |
| Ticker.ConnectGroups | src/services/binanceTickerIngestion.ts:168-189 | one stream per distinct wanted symbol, in groups of at most 200, and no group only when nothing is wanted |
| Ticker.StreamName | src/services/binanceTickerIngestion.ts:21-24 | a stream is the symbol quoted in USDT, in small letters, with @ticker after it |
| Ticker.SameStreamIff | src/services/binanceTickerIngestion.ts:21-24 | two wanted symbols share a stream exactly when they are equal or one is the other with USDT after it |
| TradeBuckets.AggregateKlines | src/modules/chart/repository.ts:260-316 | one pass over the trades gives the group-by, cut to the last `limit`: for a positive limit the candles of the newest min(limit, number of buckets) buckets, oldest first, every bucket left out starting before all that are shown |
| TradeBuckets.LastKlines | src/modules/chart/repository.ts:305-307 | the last `limit` candles of the group-by are those of the newest buckets |
| TradeBuckets.CandleMeaning | src/modules/chart/repository.ts:283-303 | for trades in time order a candle opens at the earliest and closes at the latest price of its bucket, and high and low are traded extremes |
| TradeBuckets.TradesInProperties | src/modules/chart/repository.ts:286-286 | a bucket holds exactly the trades whose time falls in it |
| TradeBuckets.BucketStartProperties | src/modules/chart/repository.ts:286-286 | bucket starts are interval multiples at or below the time and less than one interval away |
| TradeBuckets.KlineTimes | src/modules/chart/repository.ts:305-307 | output times are strictly ascending interval multiples, at most `limit` of them; limit 0 returns all |
| TradeBuckets.VolumeConserved | src/modules/chart/repository.ts:287-301 | the candles' volumes add up to the traded quantity |
| TradeBuckets.Extremes | src/modules/chart/repository.ts:289-290 | high and low bound every price and are attained |
| MarketIndex.ComputePoints | src/modules/chart/repository.ts:64-109 | the accumulating loop computes the published weighted index |
| MarketIndex.IndexLaws | src/modules/chart/repository.ts:64-109 | strictly increasing times, positive values, last value equal to the total market cap; empty exactly with fewer than two times or no market cap |
| MarketRatio.UnitsDoNotMatter | src/modules/chart/repository.ts:64-187 | multiplying all prices of a constituent by a positive factor, another for each, changes neither the scalar nor the candle series |
| MarketRatio.ContributionIsRatio | src/modules/chart/repository.ts:64-187 | every contribution stands to the market cap as the price to the constituent's first close, and the first close contributes the market cap |
| MarketIndex.AddEntryAccumulates | src/modules/chart/repository.ts:81-84 | the accumulator of a time is the sum of its weighted ratios and of its weights |
| MarketOhlc.ComputeOhlcPoints | src/modules/chart/repository.ts:111-187 | the accumulating loop computes the published candle index |
| MarketOhlcLaws.OhlcLaws | src/modules/chart/repository.ts:111-187 | strictly increasing times, all four prices positive, low at most open and close at most high, last close equal to the total market cap; empty exactly with fewer than two times or no market cap |
| MarketOhlcLaws.ClampIsNoOp | src/modules/chart/repository.ts:172-186 | on well-formed candles the final widening of high and low changes nothing |
| MarketOhlcLaws.CloseSeriesIsScalar | src/modules/chart/repository.ts:111-187 | when every counted candle has positive fields the close series is the scalar series |
| MarketOhlcLaws.CloseSeriesCanDiffer | src/modules/chart/repository.ts:133-133 | a candle with a positive close and another field that is not makes the two series differ |
| MarketBatch.BatchedEqualsPerSymbol | src/modules/chart/repository.ts:318-443 | for every database with unique keys and every order of ties and a limit that is positive or -1 the batched trend equals the per-symbol one, scalar and candles, trade fallback included, when constituents that agree after upper-casing have the same cap |
| MarketBatchExact.AlwaysSameIff | src/modules/chart/repository.ts:318-443 | the two ways give every constituent the same candles and cap for every database, window, order of ties and trade fallback if and only if there are no constituents, or the limit is positive or -1 and constituents that agree after upper-casing have the same cap |
| MarketBatchExact.RepeatedSymbolDiffers | src/modules/chart/repository.ts:383-385 | with limit 30, a symbol listed with caps 1 and 2 beside a flat one: the two published series differ |
| MarketBatchExact.LimitZeroDiffers | src/modules/chart/repository.ts:341-406 | limit 0 and two stored candles: the per-symbol series has points, the batched one none |
| MarketBatch.GroupIsFilter | src/modules/chart/repository.ts:398-403 | grouping with push gives each symbol its own rows in order |
| MarketBatch.OnlySorted | src/modules/chart/repository.ts:397-403 | filtering a sorted listing by symbol gives a sorted listing of that symbol's rows |
| MarketBatch.SortUnique | src/modules/chart/model.ts:43-43 | with unique open times there is one sorted listing |
| MarketBatch.CapsExact | src/modules/chart/repository.ts:383-385 | the looked-up caps are the constituents' own exactly when equal upper-cased symbols have equal caps |
| MarketBatch.CutsAgreeExactly | src/modules/chart/repository.ts:406-406 | the cursor limit and the array slice cut every listing alike exactly for a limit of at least 1 |
| MarketBatch.SameSets | src/modules/chart/repository.ts:411-440 | under those conditions each constituent gets the same candles and cap either way |
| Masking.MatchAtLetter | src/i18n/coinDictionary.ts:144-148 | a match that starts at the letter of a placeholder is a term of the form `C<digits>` |
| Masking.StepOverMark | src/i18n/coinDictionary.ts:144-148 | a term without brackets that is not `C<digits>` never matches in or across a placeholder |
| Masking.ScanFindsIff | src/i18n/coinDictionary.ts:143-148 | one term's replacement takes something out exactly when the term occurs up to case between word edges, takes out only spellings of it, and otherwise leaves the text |
| Masking.FoldsCaseOnly | src/i18n/coinDictionary.ts:144-144 | within ASCII the case-insensitive match identifies the two cases of a letter and nothing else |
| MaskComplete.NoTermIsLeft | src/i18n/coinDictionary.ts:138-151 | after masking, no safe term of two or more characters in the list occurs in the text, whatever the other terms are |
| MaskComplete.MasksNothingIff | src/i18n/coinDictionary.ts:138-151 | a list leaves a text as it is exactly when no term of two or more characters in it occurs |
| Placeholder.CharsOnly | src/i18n/coinDictionary.ts:138-151 | a leading part of the text in which every opening bracket is followed by something other than an opening bracket is made of single characters, no placeholder reaches into it |
| Placeholder.DecimalInjective | src/i18n/translationService.ts:32-34 | different numbers have different placeholders |
| Placeholder.FlatTokenise | src/i18n/translationService.ts:40-52 | reading a text back finds exactly its placeholders when none is spelled by other characters |
| MaskTokens.ScanIsTokScan | src/i18n/coinDictionary.ts:138-151 | replacing a term in a string is replacing runs of characters in its list of characters and placeholders |
| MaskTokens.TokScanExpands | src/i18n/coinDictionary.ts:138-151 | putting the recorded originals back gives the list before the replacement |
| MaskRoundTrip.ReplaceIsPut | src/i18n/coinDictionary.ts:153-158 | split and join on a placeholder replaces exactly the placeholders of that number |
| MaskRoundTrip.UnmaskRound | src/i18n/coinDictionary.ts:153-158 | one round of unmasking puts one more original back and disturbs nothing |
| MaskPipeline.UnmaskUndoesMask | src/i18n/coinDictionary.ts:138-158 | for safe terms, unmasking gives the text back if and only if the text contains no placeholder numbered like a masked term |
| MaskLaws.FoundIffContained | src/i18n/coinDictionary.ts:153-158 | a placeholder is read from a text exactly when the text contains it |
| MaskLaws.UnmaskOpens | src/i18n/coinDictionary.ts:153-158 | each placeholder numbered like an original costs the result two opening brackets |
| MaskPipeline.PipelineIsIdentity | src/i18n/translationService.ts:284-296 | around a provider that changes nothing a text without placeholders comes back when the placeholders stand in number order, or for the same words |
| MaskPipeline.PipelineOutput | src/i18n/translationService.ts:284-296 | around such a provider a text without opening brackets comes back with its masked words in masking order, left to right |
| MaskIdentity.PipelineIdentityIff | src/i18n/translationService.ts:284-296 | around such a provider a text without opening brackets whose masked words have one length comes back if and only if each placeholder stands for the word its place is given |
| MaskPipeline.RenumberExpands | src/i18n/translationService.ts:40-52 | renumbering left to right keeps what unmasking restores when the words agree place by place |
| MaskPipeline.MaskCoinTerms | src/i18n/coinDictionary.ts:138-151 | the loop over terms with its counter and recorded matches |
| MaskPipeline.ReplaceTerm | src/i18n/coinDictionary.ts:143-148 | matches of one term left to right, each replaced by the next number |
| MaskPipeline.UnmaskCoinTerms | src/i18n/coinDictionary.ts:153-158 | the loop that puts the originals back one number at a time |
| MaskPipeline.RealignProviderPlaceholders | src/i18n/translationService.ts:40-52 | placeholders renumbered left to right, the last number repeated past the count of the input, no change when the input has none |
| MaskExamples.OrderMatters | src/i18n/translationService.ts:284-296 | an input on which the pipeline swaps two words although the provider changes nothing |
| MaskExamples.PlaceholderLikeTerm | src/i18n/coinDictionary.ts:138-158 | a term `C0` is masked inside a placeholder and unmasking does not give the text back |
| Translation.RefinesPointwise | src/i18n/translationService.ts:225-324 | with a sound cache and a pointwise provider each output before the cut is the translation of its own text and each later one its text, nothing is sent twice, and the cache stays sound under failing reads and writes |
| Translation.CutProperties | src/i18n/translationService.ts:227-242 | at most 200 strings and 120000 characters are accepted, and the cut could not be moved on |
| Translation.FailureStoresNothing | src/i18n/translationService.ts:293-315 | after a provider failure nothing is cached |
| Translation.RepeatedBatch | src/i18n/translationService.ts:298-315 | the same batch again sends only the texts whose translation is the text itself |
| Translation.StoredAt | src/i18n/translationService.ts:298-315 | exactly the misses whose value differs from the source and whose write succeeds are stored |
| Translation.DistinctProperties | src/i18n/translationService.ts:248-248 | the texts looked up are those accepted, each once |
| Translation.MissesProperties | src/i18n/translationService.ts:261-275 | exactly the texts without a readable entry are sent, each once |
| Translation.Collect | src/i18n/translationService.ts:227-242 | the work list is the non-empty texts before the cut, each with its own index |
| Translation.TranslationService.ReadCache | src/i18n/translationService.ts:248-275 | readable entries become hits and the other texts misses |
| Translation.TranslationService.StoreMisses | src/i18n/translationService.ts:298-315 | every miss gets its value, and the cache its storable ones |
| Translation.TranslationService.TranslateBatch | src/i18n/translationService.ts:195-325 | the outputs and the new cache; unchanged inputs for English, no inputs or an inactive feature |
| Translation.Place | src/i18n/translationService.ts:317-322 | each translation goes to the places its text came from and nowhere else |
| Pagination.Limit | src/modules/notifications/service.ts:43-43 | 20 when none is asked for, otherwise the asked size brought into 1 to 50 |
| Pagination.PagesAreComplete | src/modules/notifications/service.ts:43-78 | following the cursors returns the matching rows of the first request once each, newest first, a prefix of them at any time and all of them exactly when the requests made times the limit reach their number |
| Pagination.PageShows | src/modules/notifications/service.ts:43-78 | on the fields of the rows: a page has at most `limit` rows that were asked for, by creation time and then identifier downwards, after a cursor only smaller ones; a row left out is older than all of the page; the next cursor is the page's last row and is there exactly when a row is left out |
| Pagination.FollowShows | src/modules/notifications/service.ts:43-78 | whatever happens to the notifications between requests, what following the cursors returns goes strictly down in creation time and identifier and was asked for |
| Pagination.NextRest | src/modules/notifications/service.ts:54-62 | a request with the cursor is about exactly what the listing has after the page |
| Pagination.SortedProperties | src/modules/notifications/service.ts:64-67 | the listing has every matching row once, strictly descending by creation time and identifier |
| Pagination.NewerArrivalsAreQuiet | src/modules/notifications/service.ts:54-62 | notifications newer than all present ones do not disturb the pages |
| Pagination.ArrivalsKeepPagesComplete | src/modules/notifications/service.ts:43-78 | while each request sees the database before it with only newer notifications added, the pages are a prefix of the first request's listing and all of it exactly when the requests made times the limit reach its length |
| CoinIdentity.OrderDoesNotMatter | scripts/backfill-internal-coin-ids.ts:137-220 | the trusted map and the ambiguous set do not depend on the order of rows or secondary collections |
| CoinIdentity.ReloadIsFixpoint | scripts/backfill-internal-coin-ids.ts:137-220 | after applying it, loading the map again gives the same map and ambiguous set |
| CoinIdentity.ApplyKeepsEvidence | scripts/backfill-internal-coin-ids.ts:355-372 | an application changes no symbol's evidence |
| CoinIdentity.SecondApplyUpdatesNothing | scripts/backfill-internal-coin-ids.ts:355-372 | a second application updates no row of any collection |
| CoinIdentity.SecondApplyWritesIff | scripts/backfill-internal-coin-ids.ts:24-27 | a second application writes nothing at all if and only if the first left no row without an identifier |
| CoinIdentity.PredictionHolds | scripts/backfill-internal-coin-ids.ts:412-418 | the dry run's predicted count of empty identifiers is what an application leaves, each of them queued |
| CoinBackfill.LoadTrustedMap | scripts/backfill-internal-coin-ids.ts:137-220 | a symbol is mapped exactly when the registry knows it and all its evidence is one identifier, and ambiguous exactly when the registry knows it and there is more |
| CoinIdentity.TrustedMeans | scripts/backfill-internal-coin-ids.ts:137-220 | on the fields of the rows: a symbol is mapped to an identifier exactly when a registry row vouches for the pair and no row for another identifier of the symbol, and ambiguous exactly when a registry row vouches for it and two rows disagree |
| CoinBackfill.Collection.Process | scripts/backfill-internal-coin-ids.ts:234-419 | after an application each row without an identifier has the one the trusted map has for its normalised symbol, or is unchanged and queued when the map has none, and a row with an identifier is unchanged and not queued; batches of 500 and the dry run change nothing of this but the writing, and the counts are those of rows filled and queued |
| CoinBackfill.AppliedFills | scripts/backfill-internal-coin-ids.ts:355-372 | for a trusted map exactly the rows without an identifier whose normalised symbol is in the map are filled, with its identifier, and exactly the others without one are queued |
| CoinBackfill.Collection.BulkWrite | scripts/backfill-internal-coin-ids.ts:263-276 | each update fills the row with its identifier if that row still has none |
| CoinBackfill.OpsFill | scripts/backfill-internal-coin-ids.ts:355-372 | the updates by identifier fill exactly the rows they were made for |
| ExchangeSync.EveryHistoryKeeps | src/jobs/exchangeConnectionSync.ts:196-298 | over every serial history, dying runs included: no trade is stored twice, each claim is stored or unsaved, claims and cursor never go back and the live phase is never left |
| ExchangeSync.EveryHistoryCovers | src/jobs/exchangeConnectionSync.ts:196-290 | every trade the exchange has from the first requested identifier up to the cursor has been claimed |
| ExchangeSync.SyncKeeps | src/jobs/exchangeConnectionSync.ts:98-298 | one run, cut off after any number of commands, keeps the invariant and only moves on |
| ExchangeSync.SyncCovers | src/jobs/exchangeConnectionSync.ts:196-290 | one run fed the first trades from its cursor keeps everything up to the cursor claimed |
| ExchangeSync.MaxSeenBounds | src/jobs/exchangeConnectionSync.ts:36-41 | the new cursor is the old one or an identifier of the page, and not below either |
| ExchangeSync.ClaimedButNeverStored | src/jobs/exchangeConnectionSync.ts:50-89 | an input on which a run dies between claim and event and the next passes over the trade, with the cursor on it |
| ExchangeSync.WindowSkipsOlderTrades | src/jobs/exchangeConnectionSync.ts:203-207 | an input on which trades before the time window stay unclaimed below the cursor |
| ExchangeLoss.SyncLosesNothingIff | src/jobs/exchangeConnectionSync.ts:45-89 | a run adds no claimed but unstored trade if and only if no new trade it reaches is stored through another connection and its commands do not end between a new trade's claim and its event |
| ExchangeLoss.EveryClaimStoredIff | src/jobs/exchangeConnectionSync.ts:98-298 | over a connection's whole history every claimed trade is stored if and only if every run meets that condition |
| ExchangeLoss.LostForEver | src/jobs/exchangeConnectionSync.ts:50-52 | a claimed trade that is not stored is claimed and not stored after every further history |
| ExchangeLoss.WindowCoversIff | src/jobs/exchangeConnectionSync.ts:196-207 | the first run that gets a cursor has claimed every trade up to it if and only if each trade from before the start of its request was claimed already |
| ExchangeLoss.BackfillCoversFromStart | src/jobs/exchangeConnectionSync.ts:196-290 | a backfilling connection without a cursor asks from the first trade: fed the next trades of the exchange, its run claims every trade up to the new cursor |
| ExchangeLoss.CursorCoversOn | src/jobs/exchangeConnectionSync.ts:196-290 | with a cursor the exchange is asked from there on, and what was claimed up to the old cursor is claimed up to the new one |
| ExchangeLoss.LiveIff | src/jobs/exchangeConnectionSync.ts:127-290 | a connection is live after a run exactly when it was, or the backfill is switched off, or a page that is empty or shorter than the limit was handled with a command left for the change |
| ExchangeLoss.CursorIff | src/jobs/exchangeConnectionSync.ts:264-290 | a run that lives through its page and the next write leaves the largest known identifier as cursor, any other leaves the cursor as it was |
| ExchangeSync.Connection.PersistCoindcxTrade | src/jobs/exchangeConnectionSync.ts:45-92 | claim and event of one row, for a skipped row, a duplicate, a trade stored elsewhere and a run that dies |
| ExchangeSync.Connection.RunSync | src/jobs/exchangeConnectionSync.ts:98-298 | row, claims and events after a run's trades half |
| ExchangeSync.Connection.PersistPage | src/jobs/exchangeConnectionSync.ts:273-278 | the rows of a page persisted in order until the run dies |
| ExchangeSync.MaxSeenInPage | src/jobs/exchangeConnectionSync.ts:264-271 | the loop over the page's identifiers |
| WalletBuffer.EveryRunConserves | src/services/walletEventAggregator.ts:148-203 | buffer keys are timer keys, no buffered list is empty, and for each key what arrived is what was flushed followed by what is buffered |
| WalletBuffer.DrainedWhenTimersFire | src/services/walletEventAggregator.ts:179-192 | when all pending timers have fired everything that arrived has been flushed |
| WalletBuffer.ParsedBackIff | src/services/walletEventAggregator.ts:202-203 | a flush reads back the address and chain of its events exactly when neither has a colon |
| WalletBuffer.KeysApart | src/services/walletEventAggregator.ts:161-161 | without colons a key belongs to one address and chain |
| WalletBuffer.Aggregator.IngestWalletEvent | src/services/walletEventAggregator.ts:148-175 | the event is appended to its key's list and a timer is pending for the key |
| WalletBuffer.Aggregator.ScheduleFlush | src/services/walletEventAggregator.ts:179-192 | a timer is pending for the key, and those of the other keys are as before |
| WalletBuffer.Aggregator.TimerCallback | src/services/walletEventAggregator.ts:186-200 | one non-empty batch with exactly the buffered events of the key |
| SingleFlight.AlwaysOneFlight | src/utils/responseCache.ts:25-60 | under every interleaving at most one running fetch per key, callers get the result of the fetch they joined, and cache and callers hold only data fetched for their key |
| SingleFlight.RequestIsAnswered | src/utils/responseCache.ts:25-60 | a new request that misses the cache joins the fetch in flight for its key or starts one, and is answered with its result when it ends |
| SingleFlight.StoredIsServed | src/utils/responseCache.ts:28-60 | once a result is stored, every later request that can read the cache is answered with it and starts no fetch, until it is evicted or another result of the key is stored |
| SingleFlight.CachedStays | src/utils/responseCache.ts:28-34 | a cached value stays until it is evicted or replaced |
| SingleFlight.EntriesAreRunningIff | src/utils/responseCache.ts:40-56 | the in-flight map holds exactly the running fetches after a run if and only if no fetcher in it threw before returning a promise |
| SingleFlight.PoisonedRequestsFail | src/utils/responseCache.ts:41-60 | after such a throw every later request that misses the cache fails |
| SingleFlight.PoisonStays | src/utils/responseCache.ts:52-56 | the failed entry stays in the map in every later state |
| CommentForest.EveryRunKeepsForest | src/modules/comment/service.ts:52-164 | over every serial run each reply count is the number of children, each parent exists, is older and in the same article, and article count plus soft deletes is the number of stored comments |
| CommentForest.HardDeleteKeepsForest | src/modules/comment/service.ts:149-159 | a comment without replies is nobody's parent, and its going leaves all counters right |
| CommentForest.CounterIsLiveIff | src/modules/comment/service.ts:149-164 | from a right counter a run leaves it the number of comments nobody has deleted if and only if no call of the run deletes a comment that is already blanked |
| CommentAuthors.OnlyTheAuthor | src/modules/comment/service.ts:137-169 | over every run a comment keeps author, article, text and parent unless its author deletes it |
| CommentAuthors.DeleteNeedsAuthor | src/modules/comment/service.ts:137-169 | a call blanks or removes a comment if and only if its author asks to delete it under its article |
| CommentAuthors.EveryRunPresentable | src/modules/comment/service.ts:52-164 | over every run each stored text has 1 to 500 characters and a blanked comment reads [deleted] |
| CommentAuthors.StoredAsSent | src/modules/comment/service.ts:52-135 | a call is stored exactly as sent when its user is known, its text has 1 to 500 characters and its parent, if any, is a comment of the same article; otherwise nothing changes |
| CommentAuthors.WhyRefused | src/modules/comment/service.ts:52-147 | exactly which check refuses a call, in their order |
| CommentForest.CounterLagsRepeats | src/modules/comment/service.ts:149-164 | over every run the counter falls behind the comments nobody has deleted by one for each delete of a blanked comment |
| CommentForest.BlankedParentMiscounts | src/modules/comment/service.ts:149-164 | a parent blanked, its only reply deleted and the parent deleted again: three off the counter for two comments |
| CommentForest.SecondSoftDeleteMiscounts | src/modules/comment/service.ts:149-164 | deleting a replied-to comment twice takes two off the counter and no comment away |
| CommentForest.CommentService.AddComment | src/modules/comment/service.ts:52-135 | the stored comment and counters, or exactly which check refuses the call |
| CommentForest.CommentService.DeleteComment | src/modules/comment/service.ts:137-169 | soft or hard deletion with its counters, or exactly which check refuses the call |
| CommentForest.CommentService.IncrementReplyCount | src/modules/comment/repository.ts:61-63 | adds to one existing comment's reply count only |
| BoardSaves.EveryRunCounts | src/modules/newsboard/service.ts:28-116 | over every serial run saves plus unsaves by users who did not hold the item is the number of distinct holders |
| BoardSaves.CounterIsHoldersIff | src/modules/newsboard/service.ts:93-112 | from a right counter a run leaves it right if and only if no call unsaved an item its user did not hold |
| BoardSaves.HoldersChange | src/modules/newsboard/service.ts:28-49 | a change to one board changes the holders of the item by its caller at most |
| BoardSaves.NewsBoardService.SaveItem | src/modules/newsboard/service.ts:28-66 | the item on the board, and one more save exactly on the user's first |
| BoardSaves.NewsBoardService.UnsaveItem | src/modules/newsboard/service.ts:93-117 | the item off the board, and one less save exactly when no other board of the user holds it |
| BoardSaves.NewsBoardService.ExistsWithNews | src/modules/newsboard/repository.ts:33-43 | whether another board of the user holds the item |

## Left out

- EmailNoLoss.OneWorkerLosesNothing: speaks of one worker, because with two the claim is false (`EmailTwoWorkers.TwoWorkersCanLoseAJob`); a job taken off the dead-letter list by a replay that dies counts as settled.
- EmailDelivery.OneRound: speaks of a job alone in the system with no lock held; any number of jobs is the matter of `EmailProgress.CommandLowers`.
- EmailDelivery.DeliverAlone: speaks of a job alone in the system, for its waits; that every job among any number ends is `EmailProgress.EveryJobSettles`.
- EmailProgress.EveryJobSettles: assumes what time brings, that a read of a non-empty delayed set finds a due member; how long the clock takes to bring it is not modelled.
- MaskPipeline.PipelineIsIdentity: one direction; the other half fails when different words join to equal texts, so the exact output is proved (`MaskPipeline.PipelineOutput`), and both directions for words of one length (`MaskIdentity.PipelineIdentityIff`).
- ExchangeSync.EveryHistoryCovers: identifiers are numbers, so a comparison of identifiers that are not all digits, and leading zeros, are not modelled; claimed does not mean stored (`ExchangeLoss.EveryClaimStoredIff`).
- Email: `enqueueVerificationEmail` with its idempotency rows, the texts `classifyEmailError` looks for, heartbeats, lock refresh, metrics and the replay throttle.
- Email: Redis commands are atomic and durable; loss inside Redis is not modelled.
- Canonical JSON: `undefined`, functions and negative zero, which are not JSON values; numbers are opaque texts that determine their value.
- Prices: batches with fields of other types than the declared ones beyond an item that throws; failures of HINCRBY; sockets, reconnects and timers of the ticker process.
- Charts: IEEE rounding and non-finite numbers; the trades query itself and ties in its sort; upper-casing is a function that leaves upper case unchanged; the synthetic fallbacks and 24h figures.
- Masking: case folding beyond ASCII is a parameter constrained as the regular expression semantics constrain it; loading and sorting the term list.
- Translation: SHA-256 is injective, so keys hold the text; expiry of entries (it only removes them); the providers' own batching and truncation.
- Pagination: the text encoding of a cursor, invalid dates and identifiers in it, marking and deleting, unread counts.
- Backfill: the documents written to the review queue beyond which rows are queued and how many.
- Exchange sync: balances, freshness fields and overlapping runs of one connection; whether an update with undefined clears a field is a parameter, and nothing depends on it.
- Wallet events: what a flush does after taking its batch (enrichment, persistence, broadcast), and cooldown logging.
- Single flight: metrics; a cached value is never null.
- Comments and boards: mentions, notifications, listing; overlapping calls, where the counters can drift.
- HTTP routes, authentication, schemas, provider clients, metrics, feature flags and cron wiring: plumbing around these kernels.
