# Household dashboard: credential lifecycle, fetch cache, parsers and screen rules

This project models the logic of a single-household dashboard in Dafny and proves properties of it. The dashboard has two parts. The backend aggregates Google Calendar events, current weather, drive times and BART departures. The tablet app polls the backend and renders the results.

The model covers these parts:

- **The OAuth credential of the one household user** (`TokenManager`, `AuthController`).
  - It is a single-slot store with three operations. Signing in replaces the row wholesale. A refresh rewrites only the access token and the expiry. Signing out deletes the row.
  - The store is a class with an `Option<StoredToken>` field.
  - The two grant calls of OAuth 2.0 are abstract outcomes. These are the authorization-code exchange (section 4.1.3 of RFC 6749) and the refresh-token grant (section 6 of RFC 6749). Each outcome is a failure or a success with optional fields.
- **The stale-tolerant fetch cache** (`FetchCache`). The four data services share it. A hit within the TTL answers without fetching. A miss makes one attempt. A success overwrites the entry. A failure is answered from the old entry, whatever its age, or rethrown when there is none. It is specified once by `CacheGet` and implemented once by the class `StaleCache<T>`. Each service instantiates it.
- **The four services** (`Bart`, `Maps`, `Weather`, `GoogleCalendar`). For each, the model covers the parsing of its upstream answer and its cache policy.
  - The BART estimate loops push onto a sequence.
  - The BART sort is an in-place stable insertion sort on an array.
- **The migration runner** (`Migrate`). It walks the migration list against the names recorded in the migrations table.
- **App utilities** (`DurationParser`, `EventIconMapper`, `Colors`):
  - the Distance Matrix duration parser and the traffic-delay colours;
  - the keyword icon classifier;
  - the colour lookup tables.
- **App screens** (`BartWidget`, `SettingsScreen`):
  - the rules of the BART card;
  - the calendar selection and backend URL of the settings screen.
- **Shared modules** (`JsStrings`, `Wrappers`). `JsStrings` holds the JavaScript string semantics the above rely on: truthiness, `trim`, `\s` and `\d`, ASCII case mapping, `includes`, `parseInt` and template-string number rendering. `Wrappers` holds `Option` and `Result`.

Conventions:

- I/O is replaced by parameters. Each HTTP call, grant call and database statement is a `Result` or outcome parameter. Each clock reading is an integer `now` in milliseconds.
- Every service method reports `attempted`, which says whether its fetch ran at all.

## Model

| member | source | states |
|---|---|---|
| TokenManager.Refresh | backend/src/services/tokenManager.ts:65-81 | A refresh succeeds exactly when the grant returns both an access token and an expiry. On success, only the access token and the expiry of the row change. A grant that throws or returns an incomplete answer leaves the row untouched. The id and the refresh token are never rewritten. |
| TokenManager.ValidToken | backend/src/services/tokenManager.ts:83-100 | An empty slot gives NotAuthenticated with no refresh call. A refresh is attempted, exactly once, iff `expiresAt - now < buffer` (strict). Otherwise the stored access token is returned and the store is unchanged. A failure never changes the store. The token handed out is the one the row now holds. Well-formed rows stay well-formed. |
| TokenManager.NeedsRefresh | backend/src/services/tokenManager.ts:94 | A refresh is due iff the token expires less than five minutes from now, strictly. |
| TokenManager.HasExpiry | backend/src/services/tokenManager.ts:73 | An expiry counts as missing iff it is absent or zero, as `!expiry_date` tests. |
| TokenManager.Authenticated | backend/src/services/tokenManager.ts:102-115 | isAuthenticated is true exactly when getValidToken would succeed, and false on an empty slot. It has no error case. |
| TokenManager.NoRefreshAtBuffer | backend/src/services/tokenManager.ts:90-99 | A token expiring exactly the buffer away is handed out as stored, without a refresh. |
| TokenManager.CredentialStore.constructor | backend/src/services/tokenManager.ts:30-43 | The table starts empty and its id sequence starts at 1. |
| TokenManager.CredentialStore.StoreToken | backend/src/services/tokenManager.ts:30-43 | On success, exactly one row remains, holding the given credential under a fresh id. A failing DELETE changes nothing. A failing INSERT leaves the table empty. |
| TokenManager.CredentialStore.GetStoredToken | backend/src/services/tokenManager.ts:45-50 | Returns the row if there is one. |
| TokenManager.CredentialStore.UpdateToken | backend/src/services/tokenManager.ts:52-63 | Overwrites the access token and expiry of the row with that id. Nothing else changes. |
| TokenManager.CredentialStore.RefreshToken | backend/src/services/tokenManager.ts:65-81 | The answer and the new row are those of `Refresh`. The row is written only once both fields came back. |
| TokenManager.CredentialStore.GetValidToken | backend/src/services/tokenManager.ts:83-100 | The answer, the new row and the refresh flag are those of `ValidToken`. |
| TokenManager.CredentialStore.IsAuthenticated | backend/src/services/tokenManager.ts:102-115 | Answers `Authenticated`. A refresh it triggers is persisted. |
| TokenManager.CredentialStore.ClearTokens | backend/src/services/tokenManager.ts:117-119 | Empties the slot. |
| TokenManager.SignInThenOut | backend/src/services/tokenManager.ts:30-43 | After storing and then clearing, getValidToken fails with NotAuthenticated and makes no refresh call. |
| AuthController.HandleCallback | backend/src/controllers/authController.ts:10-95 | The exchange is called iff the code is a non-empty string. Otherwise the response is missing_code (400 or a redirect). storeToken is called iff all three tokens came back, with the row stored exactly as exchanged. An incomplete answer gives token_error. A thrown exchange or store gives auth_failed (500). Success is reported iff the row was written, as HTML for a browser and as a redirect for the app. Without a store call, the slot is unchanged. A written row takes the next id. A failed DELETE keeps the old row, and a failed INSERT leaves none. |
| AuthController.HandleGoogleCallback | backend/src/controllers/authController.ts:10-95 | The response, the new slot and the call flags are those of `HandleCallback`. |
| AuthController.GetAuthStatus | backend/src/controllers/authController.ts:97-100 | `authenticated` is what isAuthenticated answers. A refresh it triggers is persisted. |
| AuthController.Logout | backend/src/controllers/authController.ts:102-105 | Always empties the slot and answers the fixed message. |
| AuthController.IsWebBrowser | backend/src/controllers/authController.ts:17-18 | A request with no user agent, or with one too short to hold "okhttp", is treated as a web browser. |
| AuthController.OkHttpAnyCase | backend/src/controllers/authController.ts:17-18 | A user agent that contains "okhttp" in any mix of upper and lower case is not a web browser. |
| FetchCache.CacheGet | backend/src/services/weather.ts:23-74 | Exactly the misses fetch, and a hit answers the cached payload. A success is answered and stored with the call's time. A failure keeps the entry and is answered from it. An error is answered only when no entry exists. Whatever is answered is the payload the entry now holds. |
| FetchCache.IsFresh | backend/src/services/weather.ts:25 | A cache hit is an entry younger than the time-to-live, strictly. |
| FetchCache.StaleCache.constructor | backend/src/services/bart.ts:40 | The module variable starts out null. |
| FetchCache.StaleCache.Get | backend/src/services/bart.ts:42-154 | The answer, the new entry and whether it fetched are those of `CacheGet`. |
| FetchCache.Run | backend/src/services/maps.ts:20-91 | A sequence of calls on one cache yields one answer and one attempt flag per call. |
| FetchCache.RunWithinTtl | backend/src/services/maps.ts:22-25 | Every call within the TTL of an entry is answered from it, none fetches, and the entry stays. |
| FetchCache.RunNeverRaisesOnceCached | backend/src/services/weather.ts:63-73 | Once anything is cached, the entry is never cleared and no later call raises. |
| FetchCache.RunRaisesOnlyBeforeAnySuccess | backend/src/services/googleCalendar.ts:70-80 | A call raises only if nothing was ever cached and it and every earlier call met a failed fetch. It then raises its own fetch's error. |
| FetchCache.RunLastKnownGood | backend/src/services/googleCalendar.ts:63-67 | The final entry is the initial one, or the payload and time of some call's successful fetch. |
| FetchCache.StaleServeScenario | backend/src/services/weather.ts:23-74 | With a five-minute TTL, a success at 0 is served again at 3 minutes without a fetch. At 6 minutes it is served stale after a failed fetch, without raising. |
| Bart.EstimateDeparture | backend/src/services/bart.ts:83-101 | An estimate yields a departure iff its direction is the configured one and its minutes are "Leaving" or parse as an integer. "Leaving" is departing at 0 minutes. Otherwise the minutes are the parsed ones. |
| Bart.MakeDeparture | backend/src/services/bart.ts:92-100 | The pushed record keeps destination, minutes and the departing flag. Platform and colour are the estimate's own when truthy, else empty. Length is "<length> car" when the estimate gives a length, and empty iff it does not. The delay is the parsed delay, or 0 when that is absent or NaN. |
| Bart.EstimatesDepartures | backend/src/services/bart.ts:81-101 | There are at most as many departures as estimates, each drawn from one of them. |
| Bart.EtdDepartures | backend/src/services/bart.ts:81-101 | An etd fails iff it has no estimate field. Otherwise it yields at most one departure per estimate. |
| Bart.CollectEtds | backend/src/services/bart.ts:77-103 | The loops abort with an error iff some etd has no estimate field. |
| Bart.CollectedAreDrawn | backend/src/services/bart.ts:77-103 | Every collected departure comes from an estimate of one of the etds, in the configured direction. |
| Bart.EstimatesStep | backend/src/services/bart.ts:83-101 | One more estimate appends its departure, if any, at the end. |
| Bart.CollectStep | backend/src/services/bart.ts:80-102 | One more etd either aborts the loops or appends its departures at the end. |
| Bart.PushEstimates | backend/src/services/bart.ts:83-101 | The inner loop appends exactly `EstimatesDepartures` to the array. |
| Bart.CollectDepartures | backend/src/services/bart.ts:75-103 | The nested loops produce exactly `CollectEtds`. |
| Bart.InsertByMinutes | backend/src/services/bart.ts:106 | Insertion adds one element. |
| Bart.SortByMinutes | backend/src/services/bart.ts:106 | The sort keeps the length. |
| Bart.InsertIsPermutation | backend/src/services/bart.ts:106 | Insertion adds exactly the inserted element to the multiset. |
| Bart.SortIsPermutation | backend/src/services/bart.ts:106 | The sort is a permutation of its input. |
| Bart.InsertBounded | backend/src/services/bart.ts:106 | Insertion keeps an upper bound on minutes. |
| Bart.InsertKeepsSorted | backend/src/services/bart.ts:106 | Inserting into a sorted list keeps it sorted. |
| Bart.SortIsSorted | backend/src/services/bart.ts:106 | The sort output is ascending by minutes. |
| Bart.InsertKeepsDueIn | backend/src/services/bart.ts:106 | Insertion keeps the order of departures due in the same minute. |
| Bart.SortIsStable | backend/src/services/bart.ts:106 | The sort is stable: the departures due in any given minute keep their input order. |
| Bart.InsertLandsAt | backend/src/services/bart.ts:106 | The element lands after every departure due no later than it, and before the later ones. |
| Bart.Placed | backend/src/services/bart.ts:106 | The array after a pass is the prefix, the element, then the rest. |
| Bart.InsertInPlace | backend/src/services/bart.ts:106 | One in-place pass turns the prefix into `InsertByMinutes` and leaves the rest of the array alone. |
| Bart.SortOneMore | backend/src/services/bart.ts:106 | Sorting one more element is inserting it into the sorted prefix. |
| Bart.SortInPlace | backend/src/services/bart.ts:106 | Sorting the array in place leaves it equal to `SortByMinutes` of its old contents. |
| Bart.TakeIsPrefix | backend/src/services/bart.ts:107 | `Take`, the model of `slice(0, n)`, keeps the first min(n, length) elements. |
| Bart.TakeOfSortedIsEarliest | backend/src/services/bart.ts:107 | `slice(0, n)` of a sorted list is sorted. It is the prefix of min(n, length) elements. No departure left out is due before one kept. |
| Bart.StationName | backend/src/services/bart.ts:70-73 | The station name is never empty. It is the first station's own name when that is truthy. It is "Orinda" when there is no station or that name is missing. |
| Bart.StationEtds | backend/src/services/bart.ts:70-78 | With a first station, the etds are that station's etd field as a list, a single etd wrapped. There are none when there is no station, or when the first station has no etd field. |
| Bart.ParseEtdFeed | backend/src/services/bart.ts:69-107 | Parsing fails iff the loops abort. The station name is the first station's name, defaulting to "Orinda". The departures are the first min(max, collected) of the collected ones in sorted order. With no station, the result is no departures under "Orinda". |
| Bart.ParseEtdFeedEarliest | backend/src/services/bart.ts:69-107 | Exactly min(max, collected) departures are returned. They are sorted and drawn from the collected ones. No collected departure left out is due earlier than one kept. |
| Bart.DescriptionValue | backend/src/services/bart.ts:116 | A missing description reads as "". A non-empty CDATA section is unwrapped. An empty or absent section leaves the (truthy) wrapper object. |
| Bart.KeepAdvisory | backend/src/services/bart.ts:114-120 | An advisory without a type, or without a description, is never kept. A kept type has five characters. |
| Bart.ToAdvisory | backend/src/services/bart.ts:121-127 | The id is `@id` when truthy, else `id` when truthy, else empty. The type defaults to DELAY. Posted and station are the advisory's own, empty when missing. The description is the unwrapped one. |
| Bart.AsList | backend/src/services/bart.ts:71-81 | `Array.isArray(x) ? x : [x]`, also used for the advisory list: an array is kept as it is, a single object is wrapped, never dropped, and a missing field gives no items. |
| Bart.FilterAdvisories | backend/src/services/bart.ts:110-127 | Every advisory kept has a type that upper-cases to DELAY and a description that is neither empty nor the placeholder, and is the mapping of such an input. |
| Bart.QualifyingAdvisoriesKept | backend/src/services/bart.ts:113-127 | Every advisory that qualifies is kept, mapped. |
| Bart.FilterAdvisoriesOne | backend/src/services/bart.ts:113-127 | A single advisory gives its mapping iff it qualifies, and nothing otherwise. Together with the concatenation lemma this fixes the filter on every list. |
| Bart.FilterAdvisoriesAppend | backend/src/services/bart.ts:113-127 | The filter preserves input order: it distributes over concatenation. |
| Bart.PlaceholderDropped | backend/src/services/bart.ts:116-117 | "No delays reported." is never shown, either plain or wrapped in a CDATA section. |
| Bart.BartOutcome | backend/src/services/bart.ts:49-142 | Either HTTP failure, or a parse failure, is the attempt's failure. A success holds the parsed departures, the filtered advisories and the station name, stamped with the call's time. Its departures are sorted and within the configured count. |
| Bart.FetchBart | backend/src/services/bart.ts:49-142 | The try block, with the array sorted in place, yields exactly `BartOutcome`. |
| Bart.GetBartDepartures | backend/src/services/bart.ts:42-154 | The answer, new entry and fetch flag are `CacheGet` around `BartOutcome`. |
| Maps.DriveTimeFor | backend/src/services/maps.ts:52-71 | A missing or non-OK element gives the "Unavailable" row with no traffic duration. An OK element gives its duration and distance texts, each "Unavailable" when missing, and its traffic duration as given. Name and address come from the destination. |
| Maps.MapDriveTimes | backend/src/services/maps.ts:52-71 | There is one row per configured destination, in configuration order, each read from the element at the same index. |
| Maps.ElementAt | backend/src/services/maps.ts:53 | `elements[index]` is the element at that index, and undefined exactly past the end. |
| Maps.FirstRowElements | backend/src/services/maps.ts:50 | Only absent rows throw. No first row, or one without elements, gives no elements. Otherwise the first row's elements are used. |
| Maps.DriveTimesOutcome | backend/src/services/maps.ts:28-71 | A top-level status other than OK is an error carrying that status. An OK response with rows succeeds. A success is `MapDriveTimes` over the first row's elements, one row per destination. |
| Maps.NoElementsAllUnavailable | backend/src/services/maps.ts:50-62 | An OK answer without elements lists every destination as "Unavailable". |
| Maps.OneElementNotOk | backend/src/services/maps.ts:52-71 | A non-OK element at index 1 makes only that destination "Unavailable". The others keep their texts. |
| Maps.GetDriveTimes | backend/src/services/maps.ts:20-91 | The answer, new entry and fetch flag are `CacheGet` around `DriveTimesOutcome`. |
| Weather.Snapshot | backend/src/services/weather.ts:45-54 | A truthy description, main or icon of the first condition is carried over as is. Missing ones default to "Unknown", "Clear" and "01d", and any other value is the first condition's own. Readings and wind speed are copied. The location is always the configured name. |
| Weather.WeatherOutcome | backend/src/services/weather.ts:30-54 | An HTTP failure or an unreadable body fails the attempt. A success is the `Snapshot` of the body's readings, conditions and wind speed, with the configured location. |
| Weather.GetCurrentWeather | backend/src/services/weather.ts:23-74 | The answer, new entry and fetch flag are `CacheGet` around `WeatherOutcome`. |
| GoogleCalendar.TimeText | backend/src/services/googleCalendar.ts:55-56 | The result is `dateTime` when truthy, otherwise `date`, otherwise "". A non-empty result is one of the two. |
| GoogleCalendar.IsAllDay | backend/src/services/googleCalendar.ts:50-55 | An all-day event starts at its date, if any. A timed event starts at its dateTime. |
| GoogleCalendar.ToCalendarEvent | backend/src/services/googleCalendar.ts:49-60 | The id is the event's own, or empty. Start and end are `dateTime`, else `date`, else empty. The event is all-day iff start has no dateTime, and a timed event starts at that dateTime. Title defaults to "Untitled Event" and is never empty. The location is copied. |
| GoogleCalendar.MapEvents | backend/src/services/googleCalendar.ts:48-61 | There is one event per item, in the API's order. |
| GoogleCalendar.EventsOf | backend/src/services/googleCalendar.ts:48 | A page without `items` has no events. Otherwise there is one event per item, in order, each mapped by `ToCalendarEvent`. |
| GoogleCalendar.CalendarOutcome | backend/src/services/googleCalendar.ts:28-61 | A token failure, then a list failure, is the attempt's failure. A success is `MapEvents` over the listed items, as many events as items. |
| GoogleCalendar.SignedOutNoEvents | backend/src/services/googleCalendar.ts:29 | Signed out, the attempt fails with NotAuthenticated. |
| GoogleCalendar.GetUpcomingEvents | backend/src/services/googleCalendar.ts:21-81 | The answer, new entry and fetch flag are `CacheGet` around `CalendarOutcome`. A hit does not touch the credential. A miss persists what getValidToken did to it. |
| Migrate.Pending | backend/src/db/migrate.ts:44-47 | Holds exactly the listed names not yet executed, in list order. |
| Migrate.RunFrom | backend/src/db/migrate.ts:44-55 | A completed run runs exactly the pending migrations, in list order. A failed run runs a prefix of them, ending at the failing migration, and runs nothing after it. The table grows by exactly those recorded, and the failing migration is not recorded. A completed run leaves nothing unexecuted. |
| Migrate.MigrationsTable.constructor | backend/src/db/migrate.ts:21-29 | The table starts empty. |
| Migrate.MigrationsTable.Executed | backend/src/db/migrate.ts:31-34 | Returns the recorded names in id order. |
| Migrate.MigrationsTable.Record | backend/src/db/migrate.ts:36-38 | The INSERT succeeds iff the name is new, and then appends it. Otherwise nothing changes. |
| Migrate.RunStep | backend/src/db/migrate.ts:46-55 | One loop turn skips, fails, or runs and records the migration. |
| Migrate.RunList | backend/src/db/migrate.ts:40-64 | The loop with the names read once yields exactly `RunFrom`. The exit code is 0 iff the run completed, else 1. |
| Migrate.RunMigrations | backend/src/db/migrate.ts:15-19 | runMigrations is `RunList` over the three listed migrations. |
| Migrate.OnlyUpFails | backend/src/db/migrate.ts:46-55 | With distinct names and a consistent snapshot, a run fails only at a migration whose `up` failed. |
| Migrate.MigrationFailureIsUpFailure | backend/src/db/migrate.ts:15-19 | The same, for the actual migration list. |
| Migrate.SecondRunIsNoop | backend/src/db/migrate.ts:46-55 | A run right after a completed one executes nothing and changes nothing. |
| Migrate.NothingPending | backend/src/db/migrate.ts:47 | Migrations already recorded are skipped without calling `up`. |
| Migrate.Names | backend/src/db/migrate.ts:15-19 | The names are listed in order. |
| Migrate.FreshRun | backend/src/db/migrate.ts:44-55 | With nothing executed and every `up` succeeding, every migration runs in list order and is recorded. |
| Migrate.FreshDatabase | backend/src/db/migrate.ts:15-19 | On an empty database the three migrations run and are recorded in order. |
| Migrate.MigrationNames | backend/src/db/migrate.ts:15-19 | The three names are distinct and in order. |
| DurationParser.MatchHere | mobile/src/utils/durationParser.ts:16-17 | For a unit that starts with neither a digit nor white space, as "hours?" and "mins?" do: a match starts at a digit and captures the whole leading digit run, and the unit follows it after nothing but white space. |
| DurationParser.SpaceRunStops | mobile/src/utils/durationParser.ts:16-17 | `\s*` is read greedily: the white-space run stops at the first character that is not white space. |
| DurationParser.MatchHereGreedy | mobile/src/utils/durationParser.ts:16-17 | The greedy reading matches iff the unit follows the leading digit run after the white-space run. |
| DurationParser.PatternIsGreedy | mobile/src/utils/durationParser.ts:16-17 | Any way `(\d+)\s*unit` can match at a position, backtracking included, uses the whole digit run and the whole white-space run after it. |
| DurationParser.MatchHereIsPattern | mobile/src/utils/durationParser.ts:16-17 | The greedy reading finds a match iff `(\d+)\s*unit` matches at the start of the text, with any number of digits and any white space, and both runs are then the only ones possible. |
| DurationParser.FindUnit | mobile/src/utils/durationParser.ts:16-17 | A text without a digit has no match. |
| DurationParser.FindUnitLeftmost | mobile/src/utils/durationParser.ts:16-17 | `match` reports the leftmost position where `(\d+)\s*unit` matches, and nothing when it matches nowhere. |
| DurationParser.FindUnitIsRegex | mobile/src/utils/durationParser.ts:16-17 | `match` finds nothing iff `(\d+)\s*unit` matches at no position. Otherwise its group is the digit run at the leftmost position where the pattern matches. |
| DurationParser.MinutesOf | mobile/src/utils/durationParser.ts:16-27 | The result is null iff neither an hours nor a minutes match exists. Otherwise it is non-negative. |
| DurationParser.ParseDurationToMinutes | mobile/src/utils/durationParser.ts:8-28 | Absent, empty, blank or "Unavailable" input gives null. Any result is non-negative. |
| DurationParser.ParseIgnoresCase | mobile/src/utils/durationParser.ts:13 | A text parses as its lower-cased form does. |
| DurationParser.ParseOfReadable | mobile/src/utils/durationParser.ts:9-13 | A non-blank text other than "Unavailable" is parsed lower-cased. |
| DurationParser.LowerIsNotPlaceholder | mobile/src/utils/durationParser.ts:9-13 | No lower-cased text is "Unavailable". |
| DurationParser.LowerKeepsBlank | mobile/src/utils/durationParser.ts:9-13 | Lower-casing neither blanks nor un-blanks a text. |
| DurationParser.MatchOfNumber | mobile/src/utils/durationParser.ts:16-17 | At a number followed by a space and a word, the pattern matches iff the word starts with the unit. |
| DurationParser.SkipNonDigits | mobile/src/utils/durationParser.ts:16-17 | The search passes over text without digits. |
| DurationParser.SkipNumber | mobile/src/utils/durationParser.ts:16-17 | The search passes over a number followed by a different unit. |
| DurationParser.FindAtNumber | mobile/src/utils/durationParser.ts:16-20 | A number followed by its unit word is found with its value. |
| DurationParser.MinutesOfBoth | mobile/src/utils/durationParser.ts:19-27 | With both parts found, the result is hours * 60 + minutes. |
| DurationParser.MinutesOnly | mobile/src/utils/durationParser.ts:16-27 | "N mins" reads as N: there is no hours part. |
| DurationParser.NoHoursBeforeMinuteWord | mobile/src/utils/durationParser.ts:16 | "N mins" has no hours match. |
| DurationParser.MinutesOfOne | mobile/src/utils/durationParser.ts:19-27 | A missing hours part counts as 0. |
| DurationParser.MinutesOfHoursOnly | mobile/src/utils/durationParser.ts:19-27 | A missing minutes part counts as 0: hours only reads as hours * 60. |
| DurationParser.NoMinutesAfterHourWord | mobile/src/utils/durationParser.ts:17 | "N hours" has no minutes match. |
| DurationParser.HoursOnly | mobile/src/utils/durationParser.ts:16-27 | "H hour(s)" reads as H * 60. |
| DurationParser.HoursAndMinutes | mobile/src/utils/durationParser.ts:16-27 | "H hours M mins" reads as H * 60 + M. |
| DurationParser.ParseOfLowerDigitText | mobile/src/utils/durationParser.ts:9-13 | A lower-case text starting with a digit passes the guard unchanged. |
| DurationParser.ParseMinutesText | mobile/src/utils/durationParser.ts:8-28 | "<digits> min(s)" parses to its number. |
| DurationParser.ParseHoursText | mobile/src/utils/durationParser.ts:8-28 | "<digits> hour(s)" parses to its number times 60. |
| DurationParser.GuardOfHoursMinutesText | mobile/src/utils/durationParser.ts:9-13 | "H hour(s) M min(s)" passes the guard unchanged. |
| DurationParser.ParseHoursMinutesText | mobile/src/utils/durationParser.ts:8-28 | "<digits> hour(s) <digits> min(s)" parses to hours * 60 + minutes. |
| DurationParser.MinutesRoundTrip | mobile/src/utils/durationParser.ts:4-5 | Rendering any N as "N min(s)" and parsing it gives N back. |
| DurationParser.HoursRoundTrip | mobile/src/utils/durationParser.ts:4-5 | Rendering any H as "H hour(s)" and parsing it gives H * 60 back. |
| DurationParser.HoursMinutesRoundTrip | mobile/src/utils/durationParser.ts:4-5 | Rendering any H and M as "H hour(s) M min(s)" and parsing gives H * 60 + M. |
| DurationParser.HoursMinutesExample | mobile/src/utils/durationParser.ts:5 | "1 hour 5 mins" parses to 65. |
| DurationParser.MinutesExample | mobile/src/utils/durationParser.ts:5 | "10 mins" parses to 10. |
| DurationParser.HoursExample | mobile/src/utils/durationParser.ts:5 | "1 hour" parses to 60. |
| DurationParser.CalculateTrafficDelay | mobile/src/utils/durationParser.ts:35-51 | The delay exists iff the traffic text is truthy and both parses succeed, and it is then in-traffic minus usual (possibly negative). |
| DurationParser.SameDurationNoDelay | mobile/src/utils/durationParser.ts:35-51 | The same parseable text twice gives delay 0. |
| DurationParser.GetTrafficColor | mobile/src/utils/durationParser.ts:60-74 | Each colour is chosen iff the delay is in its band: null, at most 1, from 2 to 5, above 5. |
| DurationParser.GetTrafficBackground | mobile/src/utils/durationParser.ts:83-97 | Each background is chosen iff the delay is in its band: null, at most 1, from 2 to 5, above 5. |
| DurationParser.ColorAndBackgroundAgree | mobile/src/utils/durationParser.ts:60-97 | The colour and the background classify every delay alike. |
| DurationParser.TrafficColorMonotone | mobile/src/utils/durationParser.ts:60-74 | A longer delay is never shown as less severe. |
| Colors.StatusBackground | mobile/src/theme/colors.ts:47-52 | Each level's background is a "#RRGGBB" colour. |
| Colors.StatusBackgroundsDistinct | mobile/src/theme/colors.ts:47-52 | The four status levels have four distinct backgrounds. |
| Colors.GetAccentColors | mobile/src/theme/colors.ts:192-210 | Each day type gets its own accent and background. The function is total. |
| Colors.AccentColorsDistinct | mobile/src/theme/colors.ts:192-210 | Different day types differ in both accent and background. |
| Colors.GetEventCategoryBackground | mobile/src/theme/colors.ts:224-243 | Each of the seven named categories gets its own colour. "default" and any other string get eventDefault, which no named category uses. |
| Colors.CategoryBackgroundsDistinct | mobile/src/theme/colors.ts:224-239 | Different named categories get different backgrounds. |
| Colors.WeatherStyleOf | mobile/src/theme/colors.ts:177-186 | Exactly the nine conditions have a style. Rain, Drizzle and Thunderstorm are rainy, and Clouds, Mist, Fog and Haze cloudy. |
| EventIconMapper.FirstMatch | mobile/src/utils/eventIconMapper.ts:199-201 | `find` gives nothing iff no entry matches. Otherwise it gives a matching entry with no match before it. |
| EventIconMapper.GetEventIcon | mobile/src/utils/eventIconMapper.ts:192-206 | The first entry in table order with a keyword in the lower-cased "title description" decides icon, colour and category. With no match, the result is the calendar icon. |
| EventIconMapper.SearchTextShape | mobile/src/utils/eventIconMapper.ts:196 | The searched text (`SearchText`) is the title, one space and the description (empty when missing), with no capital left. |
| EventIconMapper.DefaultIconIsDistinct | mobile/src/utils/eventIconMapper.ts:180-205 | The default icon is returned iff no entry matches. |
| EventIconMapper.IconsAreNotCalendar | mobile/src/utils/eventIconMapper.ts:17-177 | No table entry uses the calendar icon. |
| EventIconMapper.CategoryIsKnown | mobile/src/utils/eventIconMapper.ts:17-177 | Every entry's category is one the colour table names, or default. |
| EventIconMapper.CategoriesAreKnown | mobile/src/utils/eventIconMapper.ts:192-206 | Every returned category has a background in the colour table. |
| EventIconMapper.IgnoresCase | mobile/src/utils/eventIconMapper.ts:196 | Upper-casing the title and description changes nothing. |
| EventIconMapper.MissingDescriptionIsEmpty | mobile/src/utils/eventIconMapper.ts:196 | A missing description behaves as an empty one. |
| EventIconMapper.MissedByCharacters | mobile/src/utils/eventIconMapper.ts:200 | An entry misses a text when each of its keywords holds a character the text lacks. |
| EventIconMapper.WorkoutMissesBirthday | mobile/src/utils/eventIconMapper.ts:19-24 | The birthday entry misses "workout ". |
| EventIconMapper.WorkoutMissesParty | mobile/src/utils/eventIconMapper.ts:25-30 | The party entry misses "workout ". |
| EventIconMapper.WorkoutMissesWedding | mobile/src/utils/eventIconMapper.ts:31-36 | The wedding entry misses "workout ". |
| EventIconMapper.WorkoutMissesMeeting | mobile/src/utils/eventIconMapper.ts:39-44 | The meeting entry misses "workout ". |
| EventIconMapper.WorkoutMissesInterview | mobile/src/utils/eventIconMapper.ts:45-50 | The interview entry misses "workout ". |
| EventIconMapper.WorkoutMissesDeadline | mobile/src/utils/eventIconMapper.ts:51-56 | The deadline entry misses "workout ". |
| EventIconMapper.WorkoutMatchesWorkAndFitness | mobile/src/utils/eventIconMapper.ts:57-76 | Both the work entry and the fitness entry match "workout ". |
| EventIconMapper.TableStart | mobile/src/utils/eventIconMapper.ts:17-56 | These are the six entries before the work entry. |
| EventIconMapper.WorkEntry | mobile/src/utils/eventIconMapper.ts:57-62 | The seventh entry is the work entry. |
| EventIconMapper.WorkoutFirstMatchesWork | mobile/src/utils/eventIconMapper.ts:17-62 | The work entry is the first to match "workout ". |
| EventIconMapper.WorkoutSearchText | mobile/src/utils/eventIconMapper.ts:196 | A title "workout" in any case is searched as "workout ". |
| EventIconMapper.WorkoutIsWork | mobile/src/utils/eventIconMapper.ts:57-76 | A "workout" event gets the briefcase of the work entry, although the fitness entry lists "workout" itself, because the first match wins over substrings. |
| BartWidget.Elapsed | mobile/src/components/BartWidget.tsx:17-41 | Without a snapshot, elapsed is 0. Otherwise it is the whole minutes since the fetch, rounded down. |
| BartWidget.Shown | mobile/src/components/BartWidget.tsx:65-69 | A departure worth showing is not leaving and is still some minutes away. |
| BartWidget.KeepShown | mobile/src/components/BartWidget.tsx:64-69 | Keeps exactly the departures that are not leaving and are at least 10 minutes out. |
| BartWidget.KeepShownAppend | mobile/src/components/BartWidget.tsx:64-69 | The filter preserves input order: it distributes over concatenation. |
| BartWidget.VisibleDepartures | mobile/src/components/BartWidget.tsx:62-71 | No data gives an empty list. Otherwise the result is the first (at most two) departures the filter keeps, in input order. None is departing and each has at least 10 adjusted minutes. |
| BartWidget.DisplayTime | mobile/src/components/BartWidget.tsx:43-47 | A row reads "Now" iff the train is departing or the adjusted minutes are at most 0. Otherwise it reads "<N> min". |
| BartWidget.VisibleRowsShowMinutes | mobile/src/components/BartWidget.tsx:62-71 | Every visible row reads "N min" with N at least 10, never "Now". |
| BartWidget.DelayMarkedFromFeed | mobile/src/components/BartWidget.tsx:47 | A row is styled as delayed (`HasDelay`, `delay > 0`) iff its estimate's delay parses as a positive number. |
| BartWidget.KeepShownSorted | mobile/src/components/BartWidget.tsx:64-69 | Filtering a sorted list keeps it sorted. |
| BartWidget.VisibleOfSortedAreEarliest | mobile/src/components/BartWidget.tsx:62-71 | Over the service's sorted departures, the card shows the earliest shown ones, earliest first. |
| SettingsScreen.InitialSelection | mobile/src/screens/SettingsScreen.tsx:53-55 | The selection holds exactly the ids of the primary calendars. |
| SettingsScreen.InitialSelectionAppend | mobile/src/screens/SettingsScreen.tsx:53-55 | The selection keeps list order: it distributes over concatenation. |
| SettingsScreen.InitialSelectionOne | mobile/src/screens/SettingsScreen.tsx:53-55 | A single calendar contributes its id iff it is primary. Together with the concatenation lemma this fixes the selection on every list. |
| SettingsScreen.InitialSelectionDistinct | mobile/src/screens/SettingsScreen.tsx:53-55 | With distinct calendar ids, the initial selection has no duplicate. |
| SettingsScreen.Without | mobile/src/screens/SettingsScreen.tsx:148 | `filter` keeps exactly the other ids. |
| SettingsScreen.WithoutAppend | mobile/src/screens/SettingsScreen.tsx:148 | Removal keeps the order of the rest: it distributes over concatenation. |
| SettingsScreen.WithoutOne | mobile/src/screens/SettingsScreen.tsx:148 | A single id is kept iff it is not the one removed. |
| SettingsScreen.WithoutAbsent | mobile/src/screens/SettingsScreen.tsx:148 | Removing an absent id changes nothing. |
| SettingsScreen.WithoutDistinct | mobile/src/screens/SettingsScreen.tsx:148 | Removal keeps a duplicate-free list duplicate-free. |
| SettingsScreen.ToggleSelection | mobile/src/screens/SettingsScreen.tsx:141-153 | An unselected id is appended at the end. The only selected id stays selected. Otherwise a selected id is removed and the rest keep their order. |
| SettingsScreen.ToggleKeepsSelection | mobile/src/screens/SettingsScreen.tsx:141-153 | A toggle never introduces a duplicate and never empties a non-empty selection. |
| SettingsScreen.ToggleTwice | mobile/src/screens/SettingsScreen.tsx:141-153 | Toggling an id on and off again restores a non-empty selection. |
| SettingsScreen.NormalizeUrl | mobile/src/screens/SettingsScreen.tsx:165-172 | Nothing is saved iff the trimmed input is empty. Otherwise the trimmed input is saved with one final slash removed, if there is one. |
| SettingsScreen.OneSlashRemoved | mobile/src/screens/SettingsScreen.tsx:172 | Only one slash goes: "url//" is saved as "url/". |
| SettingsScreen.SettingsState.constructor | mobile/src/screens/SettingsScreen.tsx:21-24 | The screen opens with nothing selected and the configured URL in both fields. |
| SettingsScreen.SettingsState.LoadCalendars | mobile/src/screens/SettingsScreen.tsx:50-55 | The primary calendars become the selection. The URLs are untouched. |
| SettingsScreen.SettingsState.ToggleCalendar | mobile/src/screens/SettingsScreen.tsx:141-153 | The selection becomes `ToggleSelection` of the old one. |
| SettingsScreen.SettingsState.EditUrl | mobile/src/screens/SettingsScreen.tsx:208 | The text field takes the typed text. Nothing else changes. |
| SettingsScreen.SettingsState.SaveBackendUrl | mobile/src/screens/SettingsScreen.tsx:165-184 | Both URLs become the normalised input iff there is one and it was stored. Otherwise nothing changes. |
| SettingsScreen.SettingsState.ResetBackendUrl | mobile/src/screens/SettingsScreen.tsx:186-195 | Once the default (the emulator host) is stored, both URLs are set to it. A failed store changes nothing. |
| JsStrings.TrimStart | mobile/src/screens/SettingsScreen.tsx:166 | Drops exactly the leading white space. |
| JsStrings.TrimEnd | mobile/src/screens/SettingsScreen.tsx:166 | Drops exactly the trailing white space. |
| JsStrings.Trim | mobile/src/utils/durationParser.ts:9 | `trim()` is empty iff the text is all white space. Otherwise it has no white space at either end. |
| JsStrings.TrimIsSlice | mobile/src/screens/SettingsScreen.tsx:166 | The trimmed text is a contiguous slice of the text. |
| JsStrings.TrimNoop | mobile/src/screens/SettingsScreen.tsx:166 | A text with no white space at either end is its own trim. |
| JsStrings.ToLower | mobile/src/utils/eventIconMapper.ts:196 | Lower-casing keeps the length. |
| JsStrings.ToUpper | backend/src/services/bart.ts:118 | Upper-casing keeps the length. |
| JsStrings.LowerKeeps | mobile/src/utils/durationParser.ts:13 | Lower-casing is idempotent and keeps white space where it was. |
| JsStrings.LowerOfLowerCase | mobile/src/utils/durationParser.ts:13 | Text without capitals is its own lower case. |
| JsStrings.LowerAppend | mobile/src/utils/eventIconMapper.ts:196 | Lower-casing distributes over concatenation. |
| JsStrings.LowerOfUpper | mobile/src/utils/eventIconMapper.ts:196 | Upper-casing first does not change the lower case. |
| JsStrings.NotIncludedByChar | mobile/src/utils/eventIconMapper.ts:200 | A needle with a character the text lacks is not included. |
| JsStrings.IncludedAt | mobile/src/utils/eventIconMapper.ts:200 | A needle found at a position is included. |
| JsStrings.NatToString | mobile/src/components/BartWidget.tsx:46 | `${n}` is a non-empty digit string. |
| JsStrings.DigitsValueOfNatToString | mobile/src/components/BartWidget.tsx:46 | Reading back the rendered digits gives n. |
| JsStrings.DigitRun | backend/src/services/bart.ts:88 | Counts the maximal run of leading digits. |
| JsStrings.DigitRunOfDigitsThen | backend/src/services/bart.ts:88 | A digit string followed by a non-digit is read whole. |
| JsStrings.ParseInt | backend/src/services/bart.ts:88 | A negative result needs a minus sign after the leading white space. |
| JsStrings.ParseIntNaNIff | backend/src/services/bart.ts:88-90 | parseInt gives NaN iff, after the white space, neither a digit nor a sign followed by a digit comes. |
| JsStrings.ParseIntOfSigned | backend/src/services/bart.ts:88 | After a minus sign, parseInt reads the following digit run and negates it. |
| JsStrings.ParseIntOfDigitsThen | backend/src/services/bart.ts:88 | parseInt reads a leading digit string whole, whatever non-digit follows. |
| JsStrings.ParseIntOfNatToString | backend/src/services/bart.ts:88 | parseInt reads back any rendered natural number. |
| JsStrings.ParseIntNaN | backend/src/services/bart.ts:88-90 | Text starting with neither white space, sign nor digit gives NaN. |

## Left out
- DurationParser.MatchHere: a unit that starts with a digit or white space is not modelled. There the greedy reading and the backtracking regex can differ, and the parser only uses "hours?" and "mins?".
- JsStrings.NatToString: numbers are modelled as unbounded integers, while JavaScript numbers are doubles. `${n}` switches to exponent form from 1e21, so the rendered digits are exact only below that.
- JsStrings.DigitsValueOfNatToString: holds for unbounded integers. parseInt of more than about 16 digits rounds to the nearest double, above 2^53.
- JsStrings.ParseIntOfNatToString: the same double rounding applies. The read-back is exact for integers up to 2^53 only.
- DurationParser.MinutesRoundTrip: exact for unbounded integers. With doubles it holds only for counts up to 2^53, and the rendering must stay below 1e21.
- DurationParser.HoursRoundTrip: the same bound applies to H, and to H * 60.
- DurationParser.HoursMinutesRoundTrip: the same bound applies to H, M and H * 60 + M.

- I/O is parameters. HTTP calls (axios, googleapis), the OAuth client and the PostgreSQL queries are outcome parameters. Database failures are modelled only for the two statements of storeToken. The UPDATE of a refresh and the migration INSERT are assumed to reach the database. The migration INSERT's UNIQUE constraint is modelled.
- The internals of the RFC 6749 grants are not modelled. The consent URL and the OAuth client construction are also left out. Only what the grants return is checked.
- Each call reads one clock. The source reads `Date.now()` again after the awaited fetch for the cache timestamp, and `new Date()` for `fetchedAt`. Dates are integer milliseconds, with no ISO or locale formatting.
- Weather.Snapshot: temperature, feels-like and wind speed are opaque integers. The `Math.round` of floats is not modelled.
- The case mapping of `toLowerCase`/`toUpperCase` is ASCII only. Non-ASCII letters are left as they are.
- Concurrency is not modelled. The two BART requests of `Promise.all` are two independent outcomes. Concurrent refreshes of one token, and calls interleaving with a pending fetch, are outside the sequential model.
- React is not modelled: rendering, hooks, the one-minute interval of the countdown, alerts, deep links, and the reload after saving a URL. `HasDelay` is the delay-styling condition, without the style itself.
- BartWidget.Elapsed: `fetchedAt` is taken as milliseconds; parsing the ISO string is not modelled.
- BART_STATION, BART_SF_DIRECTION and BART_MAX_DEPARTURES are parameters (`Config`). Their values are configuration that is not part of this model. The station code only selects the upstream request.
- The calendar request window is not modelled: seven days, `primary`, at most 50 results ordered by start. Those are request parameters, and the model takes the answer as given.
- Thin wrappers are not part of this model: the Express routes and other controllers, the auth middleware, the app's storage and api services, and environment loading. So are the SQL schema of the three migrations, the HTML bodies of the callback pages and the SVG asset scripts.
- The calendar-list cache with its 24-hour TTL is not in the shown services, and is not part of this model.
- SettingsScreen.SettingsState.ResetBackendUrl: the URLs change only when persisting the default succeeds, as the code does. A failed store is only logged.
- AuthController.HandleCallback: only the status code and page kind of each HTML answer are modelled, not the page text.
