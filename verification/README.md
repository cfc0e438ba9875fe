# Exchange-rate fetch, normalise and cache pipeline

A Dafny model of the data layer of the ConsultaDivisas Android app: the
`ExchangeRateViewModel`, which asks a content provider for the exchange-rate
records of one currency over a date range, turns every row into an entry at local
time, sorts the entries by timestamp, publishes them and caches them in
the app's preference file; and the small amount of logic in
`ExchangeRateChartScreen` that feeds it (local-to-UTC conversion, the startup
load, the "Cargar Datos" handler that swaps an inverted range, the currency pick,
and the choice between the "no data" message and the chart).

Everything is a pure function over immutable values. Nothing ambient remains:

- the zone is an injected offset function `OffsetAt = int -> int` (milliseconds
  ahead of UTC at an instant);
- the fixed-format UTC date parser is an injected `Parser = string -> Option<int>`,
  `None` standing for both "threw" and "returned null";
- the JSON codec is an injected `Encoder`/`Decoder` pair whose decoder answers a
  list, a JSON null, or a syntax error;
- the provider query is its reply (`QueryThrew`, `NullCursor`, or a cursor with
  its column names and rows);
- the clock is a `now` parameter.

Modules, leaf first:

- `Wrappers`: `Option` and `Result`.
- `TimeZone`: `LocalToUtc` (`local - offset(local)`) and `UtcToLocal`
  (`utc + offset(utc)`), with their round trip. "Local millis" are a wall-clock
  reading written as milliseconds on the UTC calendar. Entry timestamps are local
  millis in this sense.
- `Entries`: the `Entry(timestamp, rate)` record and the stable sort by timestamp.
- `Rows`: the per-row filter-map of the cursor loop, both as a function and as
  the loop itself.
- `Store`: the ViewModel state. It holds the entry list, a key/value preference
  map with the keys `entries`, `selected_currency`, `start_date_millis` and
  `end_date_millis`, and the two date fields read at construction. It provides the
  persist/get pairs, `UpdateEntries`/`CacheData`, `LoadCachedData` and `Init`.
- `Fetch`: one fetch from provider reply to ViewModel, and a sequence of
  completions applied in landing order.
- `Screen`: the screen's selection, its startup load, the load handler, the
  currency pick and the chart view. The selection's dates are epoch instants.
  The defaults come from the clock and the pickers return `Calendar.timeInMillis`.
  The screen still passes them through `localToUtc` (see Findings).

One might expect an empty or failed fetch to keep the previous data and to report
the failure. The code does otherwise, and the model follows the code:

- A null cursor, or a cursor none of whose rows parses, still ends in
  `updateEntries(emptyList)`. The visible list and the cache are therefore cleared,
  not preserved (`Fetch.EmptyFetchClearsStore`).
- The `getColumnIndexOrThrow` lookups for `timeLastUpdateUtc` and `exchangeRate`
  sit outside the row's `try`. A cursor that has at least one row but lacks either
  column ends the whole fetch with an exception. A cursor without rows never
  performs the lookup.
- The `id` lookup is inside the `try`, after the entry was already added. A
  missing `id` column therefore drops nothing (`Fetch.IdColumnIrrelevant`).
- A row whose timestamp cell is NULL makes the parser throw, and the row is
  skipped like any unparsable row.
- An exception that ends a fetch (the query throwing, or a missing column) is
  not caught anywhere. `viewModelScope` has no exception handler, so the exception
  reaches the thread's uncaught-exception handler and the process dies. Nothing
  was written, so only the preference file survives, and the next launch restores
  from it (`Fetch.AbortedFetchKillsProcess`). No fetch lands after that
  (`Fetch.ApplyCompletions`, `Fetch.AbortEndsCompletions`).

## Model

| member | source | states |
|---|---|---|
| `TimeZone.LocalToUtc` | app/src/main/java/com/example/consultadivisas/ExchangeRateChartScreen.kt:86-89 | moving the result back to local time by adding the offset read at it gives the starting value exactly when the offsets read at both values agree |
| `TimeZone.UtcToLocal` | app/src/main/java/com/example/consultadivisas/ExchangeRateViewModel.kt:108-109 | converting the local value back with `LocalToUtc` gives the instant exactly when the offsets read at both values agree |
| `TimeZone.LocalToUtcMonotone` | app/src/main/java/com/example/consultadivisas/ExchangeRateChartScreen.kt:220-221 | an ordered local range stays ordered in UTC when the offset agrees at both ends |
| `TimeZone.SpringForwardBreaksRoundTripAndOrder` | app/src/main/java/com/example/consultadivisas/ExchangeRateChartScreen.kt:86-89 | near a spring-forward transition the round trip is off by an hour and an ordered local range becomes an inverted UTC range |
| `Entries.Insert` | app/src/main/java/com/example/consultadivisas/ExchangeRateViewModel.kt:124 | inserting adds exactly the one entry, and the result starts with it or with the list's old head |
| `Entries.InsertKeepsSorted` | app/src/main/java/com/example/consultadivisas/ExchangeRateViewModel.kt:124 | inserting into a timestamp-ordered list keeps it ordered |
| `Entries.SortByTimestamp` | app/src/main/java/com/example/consultadivisas/ExchangeRateViewModel.kt:124 | the sorted list is non-decreasing by timestamp and a permutation of its input |
| `Entries.InsertAtTimestamp` | app/src/main/java/com/example/consultadivisas/ExchangeRateViewModel.kt:124 | the inserted entry goes to the head of its own timestamp's run, and every other run is unchanged |
| `Entries.SortKeepsArrivalOrder` | app/src/main/java/com/example/consultadivisas/ExchangeRateViewModel.kt:124 | for every timestamp, the entries carrying it keep their arrival order (`sortBy` is stable) |
| `Entries.SortIsStable` | app/src/main/java/com/example/consultadivisas/ExchangeRateViewModel.kt:124 | the sort is an ordered, stable permutation of its input |
| `Entries.SortOfSortedIsIdentity` | app/src/main/java/com/example/consultadivisas/ExchangeRateViewModel.kt:124 | a list already in timestamp order comes back unchanged |
| `Rows.ParseRow` | app/src/main/java/com/example/consultadivisas/ExchangeRateViewModel.kt:101-111 | a row is skipped exactly when its timestamp text is NULL, fails to parse or parses to null; otherwise its entry carries the row's rate and a timestamp `offset(utc)` after the parsed instant |
| `Rows.ParseRows` | app/src/main/java/com/example/consultadivisas/ExchangeRateViewModel.kt:99-121 | a batch never yields more entries than it has rows, and yields one per row exactly when every row's timestamp parses |
| `Rows.SkippedCount` | app/src/main/java/com/example/consultadivisas/ExchangeRateViewModel.kt:103-119 | no row is skipped exactly when every row's timestamp parses, and never more rows than the batch holds |
| `Rows.ParseRowsCount` | app/src/main/java/com/example/consultadivisas/ExchangeRateViewModel.kt:99-121 | the number of entries equals the number of rows minus the rows whose timestamp does not parse |
| `Rows.ParseRowsAppend` | app/src/main/java/com/example/consultadivisas/ExchangeRateViewModel.kt:99-121 | rows are handled independently and in order: a batch split in two gives the concatenation of the two parts' entries |
| `Rows.ParseRowsMembers` | app/src/main/java/com/example/consultadivisas/ExchangeRateViewModel.kt:105-111 | an entry is produced if and only if some row parses to an instant whose local time and rate it carries |
| `Rows.ReadRows` | app/src/main/java/com/example/consultadivisas/ExchangeRateViewModel.kt:99-121 | the row loop accumulates exactly the entries of the batch as the filter-map `ParseRows` defines them |
| `Store.GetPersistedCurrency` | app/src/main/java/com/example/consultadivisas/ExchangeRateViewModel.kt:45-47 | the stored currency code, or "USD" when none is stored |
| `Store.PersistCurrency` | app/src/main/java/com/example/consultadivisas/ExchangeRateViewModel.kt:49-51 | after persisting a code the getter answers it; no other key, the entries and the date fields are unchanged |
| `Store.GetPersistedStartDate` | app/src/main/java/com/example/consultadivisas/ExchangeRateViewModel.kt:53-55 | the stored start date, or the start field read at construction when none is stored |
| `Store.GetPersistedEndDate` | app/src/main/java/com/example/consultadivisas/ExchangeRateViewModel.kt:57-59 | the stored end date, or the end field read at construction when none is stored |
| `Store.PersistDates` | app/src/main/java/com/example/consultadivisas/ExchangeRateViewModel.kt:61-63 | after persisting a pair both getters answer it; no other key, the entries and the fields are unchanged |
| `Store.CacheData` | app/src/main/java/com/example/consultadivisas/ExchangeRateViewModel.kt:149-152 | the cache key holds the list's encoding and every other key keeps its value |
| `Store.UpdateEntries` | app/src/main/java/com/example/consultadivisas/ExchangeRateViewModel.kt:158-161 | the entries become exactly the new list (wholesale replace), the cache key holds its encoding, and nothing else changes |
| `Store.LoadCachedData` | app/src/main/java/com/example/consultadivisas/ExchangeRateViewModel.kt:135-144 | the entries are unchanged when the cache key is absent or holds JSON null, become the decoded list otherwise, and malformed JSON is a failure; the preferences are untouched |
| `Store.Init` | app/src/main/java/com/example/consultadivisas/ExchangeRateViewModel.kt:37-68 | construction fails exactly when the cached list is malformed JSON; otherwise it keeps the preference file, starts from the decoded cached list (empty when the key is absent or holds JSON null), and takes each stored date as its field, defaulting the start to `now` minus seven days and the end to `now` |
| `Store.InitWithoutCacheIsEmpty` | app/src/main/java/com/example/consultadivisas/ExchangeRateViewModel.kt:135-144 | without a cached list, or with one that decodes to JSON null, construction succeeds with no entries |
| `Store.FirstLaunchDefaults` | app/src/main/java/com/example/consultadivisas/ExchangeRateViewModel.kt:41-47 | on an empty preference file: no entries, currency "USD", start `now - 604800000`, end `now`, start before end |
| `Store.CacheRoundTrip` | app/src/main/java/com/example/consultadivisas/ExchangeRateViewModel.kt:135-152 | with a codec that decodes a list's encoding back to it, the list cached by `UpdateEntries` is the list the next construction restores |
| `Store.InitDatesOrdered` | app/src/main/java/com/example/consultadivisas/ExchangeRateViewModel.kt:41-42 | a file whose dates are both stored in order, or both absent, yields an ordered persisted range |
| `Fetch.RunFetch` | app/src/main/java/com/example/consultadivisas/ExchangeRateViewModel.kt:95-124 | a fetch aborts exactly when the query throws or a non-empty cursor lacks the time or rate column; a null cursor completes with no entries; a completed list is ordered, is a permutation of the parsed rows, and has one entry per parsable row |
| `Fetch.ApplyOutcome` | app/src/main/java/com/example/consultadivisas/ExchangeRateViewModel.kt:125-128 | an aborted fetch ends the process with the preference file as it was; a completed one replaces entries and cache with its list, and no other key changes |
| `Fetch.LoadData` | app/src/main/java/com/example/consultadivisas/ExchangeRateViewModel.kt:72-130 | a load leaves the app alive exactly when neither the query throws nor a non-empty cursor lacks a column; then the entries are the fetched list, ordered by timestamp, cached under the cache key, with no other key changed; otherwise the preference file is as it was |
| `Fetch.FetchPublishesStableSort` | app/src/main/java/com/example/consultadivisas/ExchangeRateViewModel.kt:124-128 | the published list is ordered and a stable reordering of the parsed rows |
| `Fetch.EmptyFetchClearsStore` | app/src/main/java/com/example/consultadivisas/ExchangeRateViewModel.kt:95-128 | a null cursor or a batch with no parsable row empties the entries and caches the empty list |
| `Fetch.AbortedFetchKillsProcess` | app/src/main/java/com/example/consultadivisas/ExchangeRateViewModel.kt:98-102 | a throwing query or a missing time/rate column kills the process with the preference file unchanged |
| `Fetch.IdColumnIrrelevant` | app/src/main/java/com/example/consultadivisas/ExchangeRateViewModel.kt:111-114 | the presence of an `id` column does not change the outcome |
| `Fetch.ApplyCompletions` | app/src/main/java/com/example/consultadivisas/ExchangeRateViewModel.kt:78-128 | applying completions in landing order leaves the app alive exactly when none of them aborted |
| `Fetch.LastCompletionWins` | app/src/main/java/com/example/consultadivisas/ExchangeRateViewModel.kt:125-128 | when every fetch completes, the entries and the cache are those of the fetch that landed last, in landing order |
| `Fetch.AbortEndsCompletions` | app/src/main/java/com/example/consultadivisas/ExchangeRateViewModel.kt:78-102 | the first aborted fetch kills the process; the surviving cache is the list of the last fetch that completed before it (or the original file if none did), and later fetches never apply |
| `Fetch.TwoRowsInUtcZone` | app/src/main/java/com/example/consultadivisas/ExchangeRateViewModel.kt:99-127 | two well-formed rows in a UTC zone give two entries at their UTC instants with their rates, in order |
| `Fetch.MalformedRowDropped` | app/src/main/java/com/example/consultadivisas/ExchangeRateViewModel.kt:99-127 | a malformed row between two good ones is dropped and the two good entries come out ordered |
| `Screen.InitialSelection` | app/src/main/java/com/example/consultadivisas/ExchangeRateChartScreen.kt:36-41 | the screen starts from the persisted selection: the stored currency, or "USD" when none is stored, and the dates the persisted-date getters answer |
| `Screen.SelectionSurvivesRelaunch` | app/src/main/java/com/example/consultadivisas/ExchangeRateChartScreen.kt:36-41 | after a currency is picked and a range loaded, the next launch that reads the cache starts the screen from exactly that selection: the same currency and the same ordered dates |
| `Screen.StartupRequest` | app/src/main/java/com/example/consultadivisas/ExchangeRateChartScreen.kt:45-54 | as written, the startup load converts both persisted dates with the same conversion as `localToUtc` and passes the currency through |
| `Screen.StartupRangeOrdered` | app/src/main/java/com/example/consultadivisas/ExchangeRateChartScreen.kt:45-54 | the startup load over an ordered persisted range asks for an ordered UTC range when the offset agrees at both ends |
| `Screen.NormaliseRange` | app/src/main/java/com/example/consultadivisas/ExchangeRateChartScreen.kt:213-218 | after the swap start is not after end, the pair is the original pair or its reversal, and an ordered pair is left alone |
| `Screen.OnLoadClicked` | app/src/main/java/com/example/consultadivisas/ExchangeRateChartScreen.kt:211-227 | as written, the handler persists the ordered dates (the getters answer them), keeps the entries, and requests `localToUtc` of those dates for the selected currency; the requested range is ordered when the offset agrees at both ends |
| `Screen.FirstLaunchRequestDisplaced` | app/src/main/java/com/example/consultadivisas/ExchangeRateChartScreen.kt:45-54 | as written, on a first launch in a zone six hours behind UTC, the startup load requests the week ending six hours after `now` |
| `Screen.CorrectedStartupRequest` | app/src/main/java/com/example/consultadivisas/ExchangeRateChartScreen.kt:45-54 | corrected: the startup load requests exactly the persisted instants and currency, ordered when the persisted range is |
| `Screen.FirstLaunchRequestsLastWeek` | app/src/main/java/com/example/consultadivisas/ExchangeRateChartScreen.kt:45-54 | corrected: a first launch requests "USD" over exactly the week ending at `now`, in every zone |
| `Screen.CorrectedOnLoadClicked` | app/src/main/java/com/example/consultadivisas/ExchangeRateChartScreen.kt:211-227 | corrected: the handler orders and persists the range as before, and its request window is exactly the persisted range, ordered in every zone |
| `Screen.HandlerWindowDisplaced` | app/src/main/java/com/example/consultadivisas/ExchangeRateChartScreen.kt:220-221 | in a zone six hours behind UTC, the request as written is the corrected request moved six hours later at both ends |
| `Screen.OnCurrencyPicked` | app/src/main/java/com/example/consultadivisas/ExchangeRateChartScreen.kt:164-170 | picking a currency selects it and persists it, leaving dates, entries and other keys alone |
| `Screen.ChartView` | app/src/main/java/com/example/consultadivisas/ExchangeRateChartScreen.kt:239-248 | the "no data" message exactly when there are no entries; otherwise one chart point per entry, in order, with its timestamp and rate |

## Findings

| source | as written | input that shows it | evidently intended | confidence | as-written member | corrected member |
|---|---|---|---|---|---|---|
| app/src/main/java/com/example/consultadivisas/ExchangeRateChartScreen.kt:86-89 | `localToUtc` and its inlined copies at :46-47 and its callers at :220-221: the selected dates are epoch instants (clock defaults at ExchangeRateViewModel.kt:41-42, `Calendar.timeInMillis` from the pickers at :93-107), but the screen subtracts the zone offset from them before the ViewModel formats them as UTC | first launch in a zone at UTC-6: the request runs from `now - 604800000 + 21600000` to `now + 21600000`, six hours later than the selected week | request the selected instants unchanged, since the ViewModel's formatter already writes them in UTC | high (not executed) | `Screen.FirstLaunchRequestDisplaced` (and `Screen.HandlerWindowDisplaced` for the load button) | `Screen.CorrectedStartupRequest`, `Screen.CorrectedOnLoadClicked` (with `Screen.FirstLaunchRequestsLastWeek`) |

The corrected members are the ones whose request window is the user's selection.
No other part of the model consumes a request: a fetch is modelled from the
provider's reply onward. So `Screen.StartupRequest` and `Screen.OnLoadClicked`
stay in the model to describe what the code sends.

## Left out

- Date formatting and parsing with `SimpleDateFormat` in the RFC 1123 form
  `EEE, dd MMM yyyy HH:mm:ss Z` (section 5.2.14 of RFC 1123, refining section 5
  of RFC 822). The parser is injected as `Parser`. Formatting the query dates,
  which also drops sub-second millis, is not modelled.
- Building the content URI and the `ContentResolver` query. They are Android
  I/O, so their result enters as a `ProviderReply`. The query parameters are
  `currency`, `startDate` and `endDate`, in that order.
- Coroutine dispatch to the IO and Main dispatchers. Concurrent fetches are
  modelled only as a sequence of completions in landing order
  (`Fetch.ApplyCompletions`). Teardown of the ViewModel and closing the cursor
  are not modelled.
- Rows.ParseRow: the source stores timestamp and rate as `Float`. At
  epoch-millis magnitudes that rounds timestamps to steps of 131072 ms. The model
  keeps exact `int` millis and `real` rates, so entries the source would merge
  into one timestamp stay distinct here.
- TimeZone.UtcToLocal: the source works with 64-bit `Long` millis and a 32-bit
  offset. The model uses unbounded integers, so overflow is not modelled; it is
  unreachable for real dates.
- How `getDouble` converts non-numeric cells. A row's rate is whatever the
  cursor returned.
- Gson. The codec is injected, and `Store.CacheRoundTrip` assumes it round-trips
  the cached list. A malformed cache is modelled as a construction failure
  (`InitError.MalformedCache`), because in the source the exception escapes the
  initialiser.
- SharedPreferences `apply()` is asynchronous. The model treats each write as
  immediate.
- Store.Init: the source reads `System.currentTimeMillis()` twice, once per
  date default. The model uses a single `now` for both.
- The `?: "USD"` fallback after `getString`. A stored value is never null in
  the model, so this branch does not exist.
- Store.GetPersistedCurrency: requires the key to be absent or to hold the kind of value it reads. A value of the wrong kind makes SharedPreferences throw `ClassCastException`, and no modelled operation writes one (`Store.WellTyped` is preserved).
- Store.GetPersistedStartDate: requires the key to be absent or to hold the kind of value it reads. A value of the wrong kind makes SharedPreferences throw `ClassCastException`, and no modelled operation writes one (`Store.WellTyped` is preserved).
- Store.GetPersistedEndDate: requires the key to be absent or to hold the kind of value it reads. A value of the wrong kind makes SharedPreferences throw `ClassCastException`, and no modelled operation writes one (`Store.WellTyped` is preserved).
- Store.LoadCachedData: requires the key to be absent or to hold the kind of value it reads. A value of the wrong kind makes SharedPreferences throw `ClassCastException`, and no modelled operation writes one (`Store.WellTyped` is preserved).
- Logging, the Compose UI (dialogs, the date/time pickers, the dropdown, the
  static currency list, display formatting, chart styling and axis labels, the
  show-values toggle). The axis labels format an entry's local millis as if they
  were an instant, so they add the zone offset a second time. This is not modelled.
