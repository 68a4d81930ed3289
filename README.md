# osrsHighAlc, modelled in Dafny

osrsHighAlc is a console program for Old School RuneScape players. It ranks items by the
profit of casting High Level Alchemy on them. The program works in three stages:

1. It downloads the latest Grand Exchange price snapshot and the item mapping. The mapping
   download goes through a one-hour time-to-live cache. Both downloads use a retrying GET
   with exponential backoff.
2. It joins the two into a catalog of profitable items. The profit of an item is its
   high-alchemy value, less its buy price, less the price of the nature rune each cast
   consumes.
3. It ranks the catalog two ways:
   - the best 30 by hourly profit at the instant-buy price;
   - the best 100 by per-item profit at the offer price.

   Each candidate is then enriched with the average price and volume of the last six
   samples of its time series. The program keeps the items whose volume is above a
   threshold and prints the first 10 and 20 of them.

This project models that core as Dafny functions, methods and a class, and proves what each
stage promises. The modules are:

- `Catalog`: price entries, mapping entries and the `Item` record. It holds the nature-rune
  cost, the field extraction with defaults, the combination with the mapping (the limit
  clamped to 1200, the profits), the inner join on the item id, and the candidate filter.
- `Sorting`: `OrderByDescending` as a stable insertion sort by an integer key selector.
- `Seqs`: the order-preserving `Where` (`Filter`) and `Take` (`TakeFirst`).
- `Ranking`: the two sort keys and the strict volume thresholds.
- `Enricher`: the two enrichment loops as one method parameterised by the market side. It
  covers the six-sample window, the skip of items without volume, the mean over the prices
  present, and the volume over six time points truncated toward zero. An item with volume
  but no price makes the source divide by zero. The model returns that as an error naming
  the item, and a lemma states exactly when it happens.
- `Retry`: the retrying GET as a state machine over the outcomes of successive attempts.
  It returns the result, the number of attempts and the delays waited.
- `Cache`: `CacheManager` as a class over a map, with `GetOrFetch` and `Cleanup`. The clock
  readings are parameters.
- `Pipeline`: the whole report from the downloaded data, with the end-to-end properties of
  the displayed rows.

The retry loop's comments suggest that a status other than a server error fails at once
(`osrsHighAlc/Program.cs:165` and `:172`). The model follows what the code does instead.
A non-success status below 500 throws an `HttpRequestException` at line 173, which is
inside the `try`. The `catch (Exception)` at line 177 retries every exception while retries
remain. So a 404 is retried like a 503 (`Retry.NotFoundIsRetried`,
`Retry.FailureKindIrrelevant`).

Prices and profits are whole coins (`int`). The averaged prices are exact rationals
(`real`). Volumes are `int`, and the division of a volume by six truncates toward zero as in
C# (`Enricher.TruncDiv`, `Enricher.TruncDivRemainder`). External inputs are parameters:

- the downloaded snapshot and mapping;
- the time series of each item on each side (`int -> seq<TimeSeriesEntry>`);
- the outcome of each GET attempt (`nat -> Attempt`);
- the clock readings.

## Model

| member | source | states |
|---|---|---|
| Catalog.NatureRuneCost | osrsHighAlc/Program.cs:197-207 | A non-zero cost is the `high` price of an entry with id 561; with no such entry the cost is 0 (the lookup never fails). |
| Catalog.NatureRuneCostOfEntry | osrsHighAlc/Program.cs:201 | With one entry per id, the cost is exactly the nature rune's `high` price, or 0 when that field is missing. |
| Catalog.ExtractItemDetails | osrsHighAlc/Program.cs:219-234 | The item takes the entry's id, prices and volumes, and each missing field reads as 0. The mapping fields and averages are not yet set. |
| Catalog.CombineItemAndMapping | osrsHighAlc/Program.cs:236-251 | Takes the name and high-alchemy value (0 if missing) from the mapping. The limit is the mapping's limit clamped to at most 1200. Each per-item profit satisfies high-alch = price + cast cost + profit. Each hourly profit is the per-item profit times the limit. Prices and volumes are unchanged. |
| Catalog.Joined | osrsHighAlc/Program.cs:213 | An inner join: an item is in the result iff some snapshot entry and some mapping entry with the same id combine into it. |
| Catalog.ExtractItems | osrsHighAlc/Program.cs:208-217 | Every catalog item has a positive limit of at most 1200 and a profitable side. An item is in the catalog iff it passes that filter and comes from a matching snapshot and mapping pair. |
| Catalog.CatalogItemFields | osrsHighAlc/Program.cs:208-251 | Every catalog item's fields come from a snapshot entry and a mapping entry sharing its id, with missing fields read as 0 and the profits derived as in the source. |
| Catalog.UnmappedIdDropped | osrsHighAlc/Program.cs:213 | An id that is absent from the mapping never reaches the catalog. |
| Catalog.LimitClampExamples | osrsHighAlc/Program.cs:240 | A mapping limit of 5000 becomes 1200; a limit of 300 stays 300. |
| Catalog.ProfitExample | osrsHighAlc/Program.cs:244 | High-alch 1000, buy price 400 and cast cost 180 give a per-item profit of 420. |
| Sorting.SortDescending | osrsHighAlc/Program.cs:27-28 | The result is in descending key order and is a permutation (same multiset) of the input. |
| Sorting.SortIsStable | osrsHighAlc/Program.cs:27-28 | The sort is stable: for every key value, the elements with that key appear in the same order as in the input. |
| Sorting.TakeIsTopK | osrsHighAlc/Program.cs:27-33 | Sorting and then taking the first n keeps the best n: every input element left out has a key no larger than any element kept. |
| Sorting.TakenFromInput | osrsHighAlc/Program.cs:33 | Every candidate taken from the sorted list is an element of the input. |
| Sorting.FilterKeepsSorted | osrsHighAlc/Program.cs:138-139 | Filtering a descending list leaves it descending. |
| Sorting.TakeKeepsSorted | osrsHighAlc/Program.cs:261 | A prefix of a descending list is descending. |
| Seqs.Filter | osrsHighAlc/Program.cs:138-139 | `Where`: the result is no longer than the input, and an element is in it iff it is in the input and satisfies the predicate. |
| Seqs.FilterAppend | osrsHighAlc/Program.cs:138-139 | `Where` keeps relative order: filtering a concatenation filters each part. |
| Seqs.TakeFirst | osrsHighAlc/Program.cs:33 | `Take(n)`: the result has length min(n, input length) and is the input's prefix. |
| Ranking.AboveVolume | osrsHighAlc/Program.cs:138-139 | An item is kept iff its volume on the side is strictly above the threshold, and each kept item keeps its multiplicity. |
| Ranking.HighThresholdIsStrict | osrsHighAlc/Program.cs:138 | A high-side volume of exactly 100 is dropped and one of 101 is kept. |
| Enricher.LastEntries | osrsHighAlc/Program.cs:40 | `TakeLast(6)`: the result is the suffix of length min(6, series length). |
| Enricher.ValidCountBound | osrsHighAlc/Program.cs:45-54 | The number of priced samples is at most the window size, and equals it iff every sample has a price. |
| Enricher.NoValidPriceSumsToZero | osrsHighAlc/Program.cs:49-58 | With no priced sample, the price sum is 0, because a missing price adds 0. |
| Enricher.Aggregate | osrsHighAlc/Program.cs:40-61 | The inner loop returns the window's total price, total volume and number of priced samples, with at most 6 priced. |
| Enricher.TruncDivRemainder | osrsHighAlc/Program.cs:78 | `TruncDiv` is C# integer division: the remainder has the sign of the dividend and is smaller than the divisor, so the quotient truncates toward zero. |
| Enricher.TruncDivNegativeExample | osrsHighAlc/Program.cs:78 | A volume of -7 over 6 gives -1, truncated toward zero, where Euclidean division would give -2. |
| Enricher.ApplyFields | osrsHighAlc/Program.cs:69-78 | Enrichment changes only the average price and volume of its own side. The volume is the window total over 6, truncated. Average price times the number of priced samples equals the price sum. |
| Enricher.ApplyAll | osrsHighAlc/Program.cs:77-80 | Enriches every item, in order. |
| Enricher.FailurePersists | osrsHighAlc/Program.cs:72 | Once a prefix of the loop has failed, the whole loop fails with the same error. |
| Enricher.EnrichItems | osrsHighAlc/Program.cs:33-81 | One enrichment loop: the high loop, or the low loop of lines 83-134 when `side` is low. The result equals the fold `EnrichSpec` over the candidates in order: skip when the volume is 0, fail on division by zero, otherwise append the enriched item. |
| Enricher.EnrichLoopStep | osrsHighAlc/Program.cs:64-80 | One iteration, from the window's sums: zero volume leaves the run unchanged (`continue`), volume with no priced sample ends the whole run with a division by zero, otherwise the enriched item is appended. |
| Enricher.FailureNamesUnpriceable | osrsHighAlc/Program.cs:70-73 | A failed loop names a candidate that traded but had no price in its window. |
| Enricher.UnpriceableFails | osrsHighAlc/Program.cs:70-73 | A candidate that traded but had no price makes the loop fail. |
| Enricher.EnrichFailsIffUnpriceable | osrsHighAlc/Program.cs:64-73 | The loop fails iff some candidate traded without any price in its window. |
| Enricher.TradedArePriced | osrsHighAlc/Program.cs:64-73 | When the loop succeeds, every traded candidate had a price. |
| Enricher.EnrichKeepsTradedInOrder | osrsHighAlc/Program.cs:33-81 | When the loop succeeds, its output is exactly the traded candidates, enriched, in candidate order. |
| Enricher.FixedDivisorExample | osrsHighAlc/Program.cs:78 | Three samples with volumes 10, 20 and 30 give volume 60/6 = 10, not 60/3. Prices 100, 110 and 120 average to 110. |
| Enricher.IdleItemDropped | osrsHighAlc/Program.cs:64-66 | An item whose window has zero volume is not in the output. |
| Enricher.DivideByZeroExample | osrsHighAlc/Program.cs:72 | A single sample with volume 5 and no price fails with a division by zero naming the item. |
| Retry.Backoffs | osrsHighAlc/Program.cs:167 | The k-th delay waited is 2^k seconds. |
| Retry.GetHttpContentWithRetry | osrsHighAlc/Program.cs:147-195 | The loop's result, attempt count and delays equal those of the specification `Run`. It makes between 1 and maxRetries + 1 attempts, with delays 2, 4, 8, … seconds. It fails iff every one of the maxRetries + 1 attempts fails. |
| Retry.RunBounds | osrsHighAlc/Program.cs:147-195 | At most maxRetries + 1 attempts are made in all, and one backoff delay is waited per retry. |
| Retry.RunFetchesFirstSuccess | osrsHighAlc/Program.cs:154-157 | A fetched body is that of the first successful (2xx) attempt, and every earlier attempt failed. |
| Retry.RunFailsIffAllFail | osrsHighAlc/Program.cs:177-193 | The fetch fails iff all maxRetries + 1 attempts fail. It then reports the cause of the last attempt. |
| Retry.FailureKindIrrelevant | osrsHighAlc/Program.cs:161-175 | A 5xx status, another failing status and an exception lead to the same number of attempts, the same delays, the same outcome (fetched or failed), and the same body on success. On failure the reported cause still differs by kind. |
| Retry.ServerErrorsThenSuccess | osrsHighAlc/Program.cs:163-168 | 503, 503 and then 200 give the body after 3 attempts, waiting 2 s and then 4 s. |
| Retry.NotFoundIsRetried | osrsHighAlc/Program.cs:170-185 | A 404 is retried: a 404 followed by a 200 gives the body after 2 attempts. |
| Cache.Sweep | osrsHighAlc/Program.cs:318-325 | A cleanup at time `now` keeps exactly the entries that a lookup at `now` would hit, unchanged. |
| Cache.Expired | osrsHighAlc/Program.cs:320 | The keys to remove are exactly those present whose expiry is at or before `now`. |
| Cache.CacheManager.constructor | osrsHighAlc/Program.cs:299 | The cache starts empty. |
| Cache.CacheManager.GetOrFetch | osrsHighAlc/Program.cs:301-315 | It fetches iff the key is absent or expired at `now`. On a hit it returns the stored value and changes nothing. On a miss it stores the fetched value with expiry `afterFetch + duration` and leaves the other keys alone. |
| Cache.CacheManager.Cleanup | osrsHighAlc/Program.cs:318-325 | Removing the collected keys one at a time leaves exactly `Sweep` of the old entries. |
| Cache.SweepIdempotent | osrsHighAlc/Program.cs:318-325 | A second cleanup at the same time removes nothing more. |
| Cache.SweepKeepsLookups | osrsHighAlc/Program.cs:303-325 | A cleanup never changes the answer of a lookup at its own time or later. |
| Cache.SweepTwice | osrsHighAlc/Program.cs:318-325 | An earlier cleanup is subsumed by a later one. |
| Cache.StoredEntryLifetime | osrsHighAlc/Program.cs:305-313 | A stored value hits exactly until `afterFetch + duration`, and the answers for every other key are unchanged. |
| Cache.HourScenario | osrsHighAlc/Program.cs:19-20 | With the one-hour lifetime, the sequence is: fetch at 0, hit at 59 after a cleanup at 59, then fetch again at 60 after a cleanup at 60. |
| Pipeline.Analyze | osrsHighAlc/Program.cs:23-139 | The program body after the downloads (cost, catalog, the two loops, thresholds) computes `BuildReport`. A division by zero is reported as an error. |
| Pipeline.ApplyAllKeepsSorted | osrsHighAlc/Program.cs:77-78 | Enrichment keeps the sort keys, so an enriched ranking stays descending. |
| Pipeline.EnrichedSorted | osrsHighAlc/Program.cs:33-81 | The enrichment loop's output keeps the descending order of its candidates. |
| Pipeline.EnrichedFromCandidates | osrsHighAlc/Program.cs:33-81 | Every output item of the loop is a traded candidate, enriched. |
| Pipeline.RowsOfSide | osrsHighAlc/Program.cs:138-139 | The rows of one side are at most 10 (or 20) and descending by the ranking key. Each row is a traded candidate, enriched, with volume strictly above 100 (or 6). |
| Pipeline.ReportRows | osrsHighAlc/Program.cs:25-139 | Every displayed row passes the catalog filter and has a limit of at most 1200 and volume above its table's threshold. Each table is descending by its key and no longer than 10 or 20. |
| Pipeline.HighFailureFirst | osrsHighAlc/Program.cs:33-83 | A division by zero in the high loop ends the run with that error, whatever the low side's data. |

## Left out

- HTTP and JSON: the downloads, URL building and JSON parsing are not modelled. The model
  takes the parsed snapshot, mapping and time series as values. A JSON value that fails to
  convert (`int.Parse` of a non-numeric key, a null volume read with `Value<int>`) is not
  modelled.
- The low loop downloads with `GetStringAsync`, without retry. The model treats every
  download as having succeeded. A failed download, which ends the program with an
  exception, is not modelled.
- Console output: the log lines and the table formatting of `DisplayHighItems` and
  `DisplayLowItems` are not modelled. Only their `Take(10)`/`Take(20)` is.
- Asynchrony and concurrency: the `ConcurrentDictionary`, racing callers and awaiting are
  not modelled. The static cache is one `CacheManager` instance, and `Task.Delay` becomes
  the returned list of delays.
- Time: `DateTime.UtcNow` is read by the caller and passed in as an `int` in unspecified units, one
  parameter per reading. `Cleanup` reads the clock once per entry; the model uses one
  reading for the whole sweep.
- `Math.Pow(2, k)` is a `double`; the model uses the exact integer 2^k.
- Catalog.CombineItemAndMapping: prices, profits and the high-alch value are whole `int`
  values, not C# `decimal`. The averages are exact `real` values, so the model does not
  round to 28 significant digits. 32-bit overflow of the `int` volumes and limits is not
  modelled.
- Items are values, not shared mutable objects. Both loops update the objects of the one
  catalog list. The high loop writes only the high-side average and volume, the low loop
  only the low side, and each table reads only its own side, so this sharing changes no
  displayed value.
- Duplicate mapping ids: with several mapping entries for one id, the source's `Join`
  mutates and returns the same object once per match. The model yields one distinct record
  per match instead. Because `Join` and `Where` run lazily, the source tests each combined
  object right after it is mutated; a later match for the same id mutates it again, so the
  source's catalog can then hold an object that no longer passes the filter. The filter
  invariant stated by `Catalog.ExtractItems` and `Catalog.CatalogItemFields` therefore holds
  for distinct mapping ids only. `Catalog.NatureRuneCostOfEntry` assumes one snapshot entry
  per id, as a parsed JSON object has.
- `highTime` and `lowTime` are read by `ExtractItemDetails` but never used; they are
  omitted.
- Cache.CacheManager.GetOrFetch: the cache is generic in the stored type, rather than
  storing `object` and casting back.
