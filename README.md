# Coin cache of the Android crypto tracker, in Dafny

This project models the local coin cache of the crypto-tracking app and the logic around it:

- the `cryptocurrencies` table behind `CoinDao`: upsert by id, the rank-ordered listing capped at 5000 rows, the uncapped page source, point lookup, and the `name LIKE q OR symbol LIKE q OR id LIKE q` search, with SQLite's LIKE written out as a matcher;
- the record mappings between the API's `CoinData`/`CryptoQuote` and the stored `CoinEntity` with its embedded `CoinDetailsEntity`, in both directions, with both `asDatabaseEntity` variants;
- `DefaultCoinRepositoryImpl` and the background sync `CryptoWorker.doWork`;
- `SharedViewModel.safeApiCall` with its error-message field;
- the two view-model state machines `SearchCryptoViewModel.searchCrypto` and `CoinDetailsViewModel.fetchCoinDetails`.

Layout, one module per file: `Common` (Option, the outcome of a call that may throw), `Text` (ASCII case folding, decimal text, `joinToString`/`split`), `SqlLike`, `Records`, `CoinEntityMapping`, `CryptoResponse`, `RoundedCryptoResponse`, `CoinDao`, `Repository`, `CryptoWorker`, `ApiResponseHandler`, `SearchCryptoViewModel`, `CoinDetailsViewModel`.

The table is a map from primary key to row. Its read queries are functions of a snapshot of that map. `CoinDao.CoinStore.UpsertCoins` changes it in place, one entity at a time, and is proved against `CoinDao.UpsertAll`. Kotlin `Double` values are only copied and compared, so they are `real` here. The `DecimalFormat("#.##")` rounding is a parameter `round2`. Calls into code the model does not see are inputs: the remote listing, the remote symbol lookup, the candle request, the repository's local query flow, the connectivity check, and a database failure during a write. Each one either returns a value or throws, and a flow may also emit nothing.

Points where the code decides the behaviour:

- `searchCoins` passes the query to LIKE unchanged and adds no `%`. A query without wildcards therefore means equality up to ASCII case with the name, the symbol or the decimal id. It is not a substring search. `SqlLike.ContainsMatchesWrappedPattern` shows what a caller would get by adding `%` on both sides.
- `searchCrypto` only sets `searchResults` from the remote lookup. It does not write the found coin into the table.
- The repository does not return typed results. A failing write resurfaces as an exception with a fixed message prefix.
- The repository catches `java.sql.SQLException`. A write failure from Room's SQLite is an `android.database.SQLException`, which is not a subclass of it. Such a failure is therefore an `OtherFailure` and gets the "Unknown error inserting coin list into database: " prefix.
- `ORDER BY rank` does not fix the order of rows of equal rank. The model orders them by primary key, the order in which SQLite scans a rowid table.

## Model

| member | source | states |
|---|---|---|
| CoinDao.UpsertAll | app/src/main/java/com/example/cryptoapp/persistence/cache/CoinDao.kt:37-38 | after an upsert the table's keys are the old keys plus the batch's ids; nothing is deleted |
| CoinDao.UpsertLastWins | app/src/main/java/com/example/cryptoapp/persistence/cache/CoinDao.kt:33-38 | the row of an id in the batch is, whole and with no field merge, the last batch entity with that id, whatever was stored before |
| CoinDao.UpsertKeepsOthers | app/src/main/java/com/example/cryptoapp/persistence/cache/CoinDao.kt:37-38 | a row whose id is not in the batch is neither changed nor removed |
| CoinDao.UpsertAt | app/src/main/java/com/example/cryptoapp/persistence/cache/CoinDao.kt:37-38 | every key after an upsert holds either the last batch entity with that id or its old row |
| CoinDao.UpsertIdempotent | app/src/main/java/com/example/cryptoapp/persistence/cache/CoinDao.kt:37-38 | upserting the same batch twice leaves the same table as upserting it once |
| CoinDao.UpsertNeverDeletes | app/src/main/java/com/example/cryptoapp/persistence/cache/CoinDao.kt:37-38 | every key present before an upsert is present after it |
| CoinDao.UpsertKeepsKeyedById | app/src/main/java/com/example/cryptoapp/persistence/cache/CoinEntity.kt:12 | an upsert keeps every row stored under its own primary key |
| CoinDao.CoinStore.UpsertCoins | app/src/main/java/com/example/cryptoapp/persistence/cache/CoinDao.kt:37-38 | the loop over the batch leaves exactly the table `UpsertAll(old table, batch)` and keeps rows keyed by id |
| CoinDao.OrderedIds | app/src/main/java/com/example/cryptoapp/persistence/cache/CoinDao.kt:29 | every primary key exactly once, in strict (rank, id) order |
| CoinDao.GetPagedCoins | app/src/main/java/com/example/cryptoapp/persistence/cache/CoinDao.kt:29-30 | the page source lists every row, as many rows as the table holds, in non-decreasing rank, with no cap |
| CoinDao.PagedCoinsHaveDistinctIds | app/src/main/java/com/example/cryptoapp/persistence/cache/CoinDao.kt:29-30 | the page source lists each stored row once: no two rows share an id |
| CoinDao.GetAllCoins | app/src/main/java/com/example/cryptoapp/persistence/cache/CoinDao.kt:21-22 | the listing is non-decreasing in rank, holds min(table size, 5000) rows, and is a prefix of the page source's order |
| CoinDao.AllCoinsListsEveryRowBelowCap | app/src/androidTest/java/com/example/cryptoapp/CoinDaoTest.kt:93-95 | with at most 5000 rows, every stored row appears in the listing unchanged |
| CoinDao.AllCoinsKeepsBestRanked | app/src/main/java/com/example/cryptoapp/persistence/cache/CoinDao.kt:21 | above the cap, a row left out ranks no better than any listed row |
| CoinDao.UpsertedCoinIsListed | app/src/androidTest/java/com/example/cryptoapp/CoinDaoTest.kt:93-95 | a coin just upserted into a table of at most 5000 rows is in the listing, field for field |
| CoinDao.GetCoinById | app/src/main/java/com/example/cryptoapp/persistence/cache/CoinDao.kt:46-47 | a row is returned exactly when the id is stored, and it is the row with that id; for an unknown id the flow emits null (None) |
| CoinDao.SearchCoins | app/src/main/java/com/example/cryptoapp/persistence/cache/CoinDao.kt:55-56 | a row is in the result exactly when its name, symbol or decimal id matches the query as a LIKE pattern; no row is listed twice; no match gives the empty list |
| CoinDao.SearchByNameFindsRow | app/src/androidTest/java/com/example/cryptoapp/CoinDaoTest.kt:133-135 | searching for a stored row's exact name finds that row |
| CoinDao.SearchWithoutWildcards | app/src/main/java/com/example/cryptoapp/persistence/cache/CoinDao.kt:55 | with no wildcard, a row is found exactly when its name or symbol equals the query up to ASCII case or its decimal id equals the query |
| CoinDao.SearchByIdText | app/src/main/java/com/example/cryptoapp/persistence/cache/CoinDao.kt:55 | the decimal text of an id finds that row, and any other row found matched by name or symbol, never by id |
| SqlLike.LikeWithoutWildcards | app/src/main/java/com/example/cryptoapp/persistence/cache/CoinDao.kt:55 | a pattern without `%` or `_` matches exactly the strings equal to it up to ASCII case (both directions) |
| SqlLike.LikeItself | app/src/main/java/com/example/cryptoapp/persistence/cache/CoinDao.kt:55 | every string matches itself used as a pattern, wildcards included |
| SqlLike.PercentMatchesAll | app/src/main/java/com/example/cryptoapp/persistence/cache/CoinDao.kt:55 | the pattern `%` matches every string |
| SqlLike.ContainsMatchesWrappedPattern | app/src/main/java/com/example/cryptoapp/persistence/cache/CoinDao.kt:55 | a plain text wrapped in `%` matches every string containing it up to case; `searchCoins` never wraps its query, so this is the substring search it does not do |
| Text.IntTextInjective | app/src/main/java/com/example/cryptoapp/persistence/cache/CoinDao.kt:55 | different ids have different decimal texts |
| Text.Split | app/src/main/java/com/example/cryptoapp/persistence/cache/CoinEntity.kt:61 | splitting on a comma never gives the empty list and no part contains a comma |
| Text.JoinSplit | app/src/main/java/com/example/cryptoapp/persistence/cache/CoinEntity.kt:61 | joining the parts of any stored tag string with commas gives the string back |
| Text.SplitJoin | app/src/main/java/com/example/cryptoapp/persistence/api/CryptoResponse.kt:59 | a non-empty tag list with no comma in any tag comes back unchanged from join then split |
| Text.EmptyListSplitsToOneEmptyPart | app/src/main/java/com/example/cryptoapp/persistence/cache/CoinEntity.kt:61 | the empty tag list is stored as "" and read back as [""] |
| Text.PartWithSeparatorIsCut | app/src/main/java/com/example/cryptoapp/persistence/cache/CoinEntity.kt:61 | a tag containing a comma does not read back as itself: it reads back as one more tag than the commas it holds, so at least two |
| Text.SplitCountsSeparators | app/src/main/java/com/example/cryptoapp/persistence/cache/CoinEntity.kt:61 | splitting a stored tag string gives exactly one part more than the commas it contains |
| Records.UsdQuote | app/src/main/java/com/example/cryptoapp/persistence/api/CryptoResponse.kt:48-50 | a USD quote the API sent is returned unchanged; without one, every quote figure falls back to its default |
| CoinEntityMapping.AsDetailedDomainObject | app/src/main/java/com/example/cryptoapp/persistence/cache/CoinEntity.kt:30-84 | id, name, symbol and rank come from the row; slug, market pairs, the three supplies, infinite supply and both dates from the details block; the tags are the stored string split on commas, which rejoin to it; the quote map has the single key USD, whose quote carries the row's price, 24h change and market cap and the block's volume, diluted cap, dominance and quote timestamp, with the 24h volume change 0.0; the top-level 24h change is 0.0 |
| CoinEntityMapping.AsDomainObject | app/src/main/java/com/example/cryptoapp/persistence/cache/CoinEntity.kt:86-99 | id, name, symbol and rank come from the row; the quote map has the single key USD, holding the row's price and 24h change with every other quote figure at its default; every other field is at its default |
| CoinEntityMapping.AsDomainObjects | app/src/main/java/com/example/cryptoapp/persistence/cache/CoinEntity.kt:101-104 | same length and order, each row mapped by the summary mapping |
| CoinEntityMapping.SummaryOfDetailed | app/src/main/java/com/example/cryptoapp/persistence/cache/CoinEntity.kt:86-99 | the summary of a row is the full record cut down to identity, rank, and USD price and 24h change |
| CoinEntityMapping.DomainIdIgnoresDetailsId | app/src/main/java/com/example/cryptoapp/persistence/cache/CoinEntity.kt:30-99 | both mappings take the id from the row's key; the details block's id has no influence |
| CoinEntityMapping.EmptyTagStringReadsAsOneEmptyTag | app/src/main/java/com/example/cryptoapp/persistence/cache/CoinEntity.kt:61 | an empty stored tag string reads back as [""], not [] |
| CryptoResponse.AsDatabaseEntity | app/src/main/java/com/example/cryptoapp/persistence/api/CryptoResponse.kt:42-68 | for every coin: the id goes to the row key and the details block alike; name, symbol and rank are copied; the tags are comma-joined; no USD quote means 0.0 and ""; and reading the row back in full gives the coin with both 24h-change defaults at 0.0, only the USD quote kept, and the tags as join-then-split makes them |
| CryptoResponse.StorableTagsSurviveJoin | app/src/main/java/com/example/cryptoapp/persistence/api/CryptoResponse.kt:59 | a non-empty, comma-free tag list survives the comma join |
| CryptoResponse.DetailedRoundTrip | app/src/main/java/com/example/cryptoapp/persistence/api/CryptoResponse.kt:42-68 | for a non-empty list of comma-free tags, storing an API coin and reading it back in full gives the coin back exactly, except that both 24h-change defaults become 0.0 and only the USD quote remains |
| CryptoResponse.EntityRoundTrip | app/src/main/java/com/example/cryptoapp/persistence/api/CryptoResponse.kt:42-68 | reading a row in full and storing it again gives the row back with the details id set to the row id; it is exact exactly when the two ids agree |
| CryptoResponse.EmptyTagsDoNotRoundTrip | app/src/main/java/com/example/cryptoapp/persistence/api/CryptoResponse.kt:59 | an API coin with no tags reads back with the one tag "" |
| CryptoResponse.OtherCurrenciesIgnored | app/src/main/java/com/example/cryptoapp/persistence/api/CryptoResponse.kt:48-65 | adding or changing a quote in another currency does not change the stored row |
| RoundedCryptoResponse.AsDatabaseEntityRounded | app/src/main/java/com/example/cryptoapp/persistence/api/response/CryptoResponse.kt:90-121 | id in both places, rank is cmc_rank; name, symbol, slug, market pairs, infinite supply, both dates and the supplies are copied and the tags comma-joined, all without the formatter; the six USD figures are the formatter applied to the USD quote's figures (to 0.0 without one) and the quote timestamp is copied |
| RoundedCryptoResponse.RoundedIsUnroundedWithFiguresFormatted | app/src/main/java/com/example/cryptoapp/persistence/api/response/CryptoResponse.kt:99-118 | the rounding variant is the unrounded row with exactly the six quote figures passed through the formatter |
| RoundedCryptoResponse.RoundedAgreesWhenFormatterIsIdentity | app/src/main/java/com/example/cryptoapp/persistence/api/response/CryptoResponse.kt:90-121 | with a formatter that changes nothing, the two variants give the same row |
| Repository.UpsertErrorMessage | app/src/main/java/com/example/cryptoapp/persistence/api/DefaultCoinRepository.kt:65-69 | a java.sql.SQLException's message starts with "Error inserting coin list into database: "; any other exception's, including the android.database.SQLException subclasses that Room's SQLite raises, starts with "Unknown error inserting coin list into database: "; neither prefix is the other's |
| Repository.DefaultCoinRepositoryImpl.GetCoinById | app/src/main/java/com/example/cryptoapp/persistence/api/DefaultCoinRepository.kt:42-44 | for a stored id, the flow's first value is the full domain record of its row, carrying that id; for an unknown id the DAO emits null and the mapping step throws a NullPointerException, so the flow fails instead of emitting |
| Repository.DefaultCoinRepositoryImpl.GetAllCoins | app/src/main/java/com/example/cryptoapp/persistence/api/DefaultCoinRepository.kt:52-54 | the table's listing mapped element-wise, with the same length and order, sorted by cmc_rank, at most 5000 records |
| Repository.DefaultCoinRepositoryImpl.UpsertCoins | app/src/main/java/com/example/cryptoapp/persistence/api/DefaultCoinRepository.kt:62-69 | the whole list reaches the table unchanged; a database failure leaves the table as it was and resurfaces with its prefixed message |
| CryptoWorker.EntitiesOf | app/src/main/java/com/example/cryptoapp/persistence/scheduler/CryptoWorker.kt:38 | one row per fetched coin, in listing order, with the listing's ids |
| CryptoWorker.SyncStoresEveryCoin | app/src/main/java/com/example/cryptoapp/persistence/scheduler/CryptoWorker.kt:37-40 | after a sync every fetched coin (the last, when an id repeats) is stored as its mapped row |
| CryptoWorker.SyncKeepsAbsentCoins | app/src/main/java/com/example/cryptoapp/persistence/scheduler/CryptoWorker.kt:38-39 | a coin missing from the listing keeps its row; a sync never deletes |
| CryptoWorker.SyncIdempotent | app/src/main/java/com/example/cryptoapp/persistence/scheduler/CryptoWorker.kt:37-40 | syncing the same listing twice leaves the table as syncing it once |
| CryptoWorker.UpsertKeepsDetailsIdsAgreeing | app/src/main/java/com/example/cryptoapp/persistence/api/CryptoResponse.kt:44-52 | upserting rows whose two ids agree keeps them agreeing in every row of the table |
| CryptoWorker.SyncKeepsDetailsIdsAgreeing | app/src/main/java/com/example/cryptoapp/persistence/api/CryptoResponse.kt:44-52 | a table filled only by syncs keeps the row id and the details id equal in every row |
| CryptoWorker.ResyncUpdatesInPlace | app/src/main/java/com/example/cryptoapp/persistence/scheduler/CryptoWorker.kt:37-40 | a second sync of a coin at a new price shows the new price and adds no second row |
| CryptoWorker.CryptoWorker.DoWork | app/src/main/java/com/example/cryptoapp/persistence/scheduler/CryptoWorker.kt:34-42 | a fetch that throws leaves the table untouched; fetch and write that complete give success and the synced table; a failing write leaves the table untouched and its message escapes |
| ApiResponseHandler.StatusMessage | app/src/main/java/com/example/cryptoapp/persistence/api/ApiResponseHandler.kt:60-63 | the message reads "Error ", then the decimal code, then ": " and the API's message |
| ApiResponseHandler.SharedViewModel.constructor | app/src/main/java/com/example/cryptoapp/persistence/api/ApiResponseHandler.kt:20 | the error message starts out null |
| ApiResponseHandler.SharedViewModel.TriggerError | app/src/main/java/com/example/cryptoapp/persistence/api/ApiResponseHandler.kt:32-34 | the error message becomes the given message |
| ApiResponseHandler.SharedViewModel.ClearError | app/src/main/java/com/example/cryptoapp/persistence/api/ApiResponseHandler.kt:39-41 | the error message becomes null |
| ApiResponseHandler.SharedViewModel.SafeApiCall | app/src/main/java/com/example/cryptoapp/persistence/api/ApiResponseHandler.kt:52-68 | Success exactly for a successful response with a body; an Error with the API's code and its status message exactly for an unsuccessful response whose error body reads; an error body that does not parse, an empty body and an exception from the call each give an Error without a code, carrying the exception's message or "Internet error occurred"; reads no state |
| SearchCryptoViewModel.SearchCryptoViewModel.constructor | app/src/main/java/com/example/cryptoapp/ui/searchpage/SearchCryptoViewModel.kt:28-30 | no results and not loading at the start |
| SearchCryptoViewModel.SearchCryptoViewModel.SearchCrypto | app/src/main/java/com/example/cryptoapp/ui/searchpage/SearchCryptoViewModel.kt:54-72 | loading is set true first and false last; a non-empty local result is shown and the remote lookup is not called; otherwise the remote lookup gets the query unchanged and its coin, or nothing if it throws, is shown; a missing local emission leaves results unchanged and loading true |
| CoinDetailsViewModel.AfterFetch | app/src/main/java/com/example/cryptoapp/ui/detailpage/CoinDetailsViewModel.kt:75-127 | every path ends not loading and keeps the interval; a missing coin sets only the "Failed to fetch coin details" error; a found coin is shown; USDT in any ASCII case gets the "No charting available for USDT" error, and offline the "Only prices and market info is available when offline" error, with the chart data left alone; a chart request that returns stores its candles and keeps the error; one that throws keeps the chart data and sets its message or "Network error occurred" |
| CoinDetailsViewModel.AfterLookup | app/src/main/java/com/example/cryptoapp/ui/detailpage/CoinDetailsViewModel.kt:76-80 | the screen is left loading exactly when the look-up throws, and then keeps its coin and error; otherwise the load runs to the end; the interval is kept and the chart data changes only when a chart is requested |
| CoinDetailsViewModel.UnknownCoinStaysLoading | app/src/main/java/com/example/cryptoapp/persistence/api/DefaultCoinRepository.kt:44 | opening the screen for an id the table does not hold leaves it loading with no coin, no error and no chart request; the "Failed to fetch coin details" branch is not reached |
| CoinDetailsViewModel.StoredCoinIsShown | app/src/main/java/com/example/cryptoapp/ui/detailpage/CoinDetailsViewModel.kt:79-90 | opening the screen for a stored id shows the full record of its row and ends not loading |
| CoinDetailsViewModel.CoinDetailsNeverCleared | app/src/main/java/com/example/cryptoapp/ui/detailpage/CoinDetailsViewModel.kt:77-125 | once a coin is shown, a fetch never removes it |
| CoinDetailsViewModel.ChartSuccessKeepsError | app/src/main/java/com/example/cryptoapp/ui/detailpage/CoinDetailsViewModel.kt:112-117 | a chart request that returns stores the candles and leaves the error as it was |
| CoinDetailsViewModel.FirstFetchWithChartHasNoError | app/src/main/java/com/example/cryptoapp/ui/detailpage/CoinDetailsState.kt:15-21 | from the default state, a successful chart fetch ends with no error |
| CoinDetailsViewModel.UsdtInAnyCaseHasNoChart | app/src/main/java/com/example/cryptoapp/ui/detailpage/CoinDetailsViewModel.kt:92-100 | every symbol equal to "USDT" up to ASCII case, such as "UsDt", gets the "No charting available for USDT" error and leaves the chart data alone |
| CoinDetailsViewModel.CoinDetailsViewModel.constructor | app/src/main/java/com/example/cryptoapp/ui/detailpage/CoinDetailsViewModel.kt:60-62 | the state starts as the default and exactly one fetch runs for the view model's coin id, ending in the state given by `AfterLookup` |
| CoinDetailsViewModel.CoinDetailsViewModel.FetchCoinDetails | app/src/main/java/com/example/cryptoapp/ui/detailpage/CoinDetailsViewModel.kt:75-127 | the step-by-step updates with early returns end in the state given by `AfterLookup`: a look-up that throws stops right after loading is set; one candle request, for the symbol followed by USDT at the selected interval, is made only for a found non-USDT coin when online |

## Left out

- Live queries: Room's `Flow` and `PagingSource` re-emit after every write. The model reads a snapshot of the table when the query runs. Page-by-page loading is not modelled; `GetPagedCoins` is the full ordered sequence that pages are cut from.
- Coroutines, dispatchers, and concurrent syncs or reads. Every operation runs to completion, one at a time.
- Kotlin `Int` is 32-bit; ids, ranks and error codes are unbounded `int` here. They are only copied, compared and printed.
- Kotlin `Double` is IEEE floating point; here it is `real`, and `DecimalFormat("#.##")` with its `toDouble` re-parse is the parameter `round2`.
- Text: Kotlin's `equals(ignoreCase = true)` also folds some non-ASCII characters, for example U+017F to "s". The model folds ASCII letters only. SQLite's default LIKE also folds ASCII only, so the search model is exact here.
- A database failure during a read. In `getCoinById` and `getAllCoins` the `try` only wraps building the flow, so its error messages are never produced by a read.
- Repository.DefaultCoinRepositoryImpl.GetCoinById: for an unknown id the DAO's flow emits null and the mapping throws a NullPointerException. The model keeps only the start of that exception's message, "Parameter specified as non-null is null"; the method and parameter it names are left out.
- The exception that escapes the detail screen's coroutine goes to the platform's uncaught-exception handler, which normally ends the app. The model only records the state the screen is left in.
- `getCryptoMap` and `getCryptoListings`: plain pass-throughs to the remote service, which is not part of this model.
- `getCoinByQuery`, `requestCoinBySymbol` and `getKLinesBySymbol` are not declared by the repository interface in this source. They are inputs: a first emission (or none), a returned value, or an exception.
- `CryptoWorker.doWork` reads `data` directly from the `retrofit2.Response<CryptoResponse>` that `getCryptoListings()` returns. A `Response` has no `data`, so that line does not compile as written. The model takes the response body's coin list, or an exception, as its input. A response without a body is not modelled. What WorkManager does with an exception that escapes `doWork` (failure, retry) is not part of this model.
- `isNetworkAvailable` is a boolean input. The Gson parse of an error body is an input, either the parsed status record or a parse exception.
- The candle type `KLine` is a plain record. Parsing candles, `HistoricalDataEntity`, the Compose screens, theming, navigation, dependency wiring, WorkManager scheduling and the database singleton are not part of this model.
- `SearchCoins` computes its result in rank order, but its contract promises only which rows are returned. The SQL has no ORDER BY for this query.
