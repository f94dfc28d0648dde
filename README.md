# WeatherZ core, modelled in Dafny

WeatherZ is an iOS weather app. It has an app target (`WeatherZ/`) and two
Swift packages: `WeatherData`, which holds the models and services, and
`WeatherUI`, which holds the views. This project models the app's logic that
does not depend on the platform. Where the app target and a package each keep
their own copy of the code, each copy is modelled against its own source.

- **Daily forecast aggregation.** `groupDatesByDay` buckets the 3-hour
  forecast samples by calendar day. `summaryFutureWeather` turns each bucket
  into one `DailyGeneratedResponse`:
  - the lowest `tempMin`;
  - the highest `tempMax`;
  - the most frequent primary condition code.

  It then sorts the records by day. `ForecastResponse.dailyResponse` composes
  the two steps. The package copy is `NetworkResponseModel` and the app copy is
  `WeatherStore`. Both are proved against one specification, `DailyForecast`.
- **Weather types.** `getWeatherType(from:)` classifies OpenWeatherMap
  condition codes into ten weather types. `WeatherSchemeManager` builds a
  colour and image scheme table from its configuration entries and looks types
  up in it. The package copy is `WeatherData` and the app copy is
  `AppWeatherType`. The meaning of the table is stated once, in
  `SchemeTable`.
- **Locations.** `SubscribedLocation.location` copies a subscription's fields
  into a `Location`, and `Location.belongInfo` builds its "city-state-country"
  line. The package copy is `Subscriptions` and the app copy is
  `AppSubscriptions`.
- **Search.** `GeoAPIResponse.localeName` and `fullName` give a geocoding
  result's names. The search result cell's `foundInSubscription` checks
  whether a result is already subscribed, and its "Subscribe" button builds a
  new subscription record. The WeatherUI copy is `LocationSearch` and the app
  copy is `SearchCityView`.
- **Date helpers.** `percentInBeforeAfter` and `isNight` are modelled in
  `DateHelper`.

Behaviours of the Swift standard library that the code relies on are modelled
in `SwiftCollections`:

- `Int` division truncates toward zero.
- `joined(separator:)` joins strings with a separator.
- `Dictionary.max(by:)` is a scan in the dictionary's own, unspecified order.
- `Array.sort(by:)` is specified by its outcome, a sorted permutation.

Dictionary iteration order is unspecified in Swift, so the model chooses the
next key nondeterministically. The aggregation is therefore proved for every
iteration order.

A day's weather code is any code that no other code in the bucket outnumbers.
When several codes tie, the code picks whichever one the dictionary scan
happens to meet first. The code has no tie-break rule such as "first
occurrence wins", so the model adds none. The
lemma `UniqueModeIsChosen` shows that the choice is fixed whenever the mode is
unique.

Platform services are parameters:

- `Calendar.current.startOfDay(for:)` is a function `startOfDay: real -> real`.
- The current locale's region is an `Option<string>`.
- The hour of a date is an `int`.
- The decoded configuration entries and the stored subscriptions are
  sequences.

## Model

| member | source | states |
|---|---|---|
| SwiftCollections.TruncatingDivide | WeatherData/Sources/WeatherData/WeatherData.swift:89 | the hundreds group `weatherCode / 100` truncates toward zero: the remainder has the sign of the code and is smaller than 100 in size |
| SwiftCollections.MaxByValue | WeatherData/Sources/ResponseModel/NetworkResponseModel.swift:278 | `max(by:)` over the frequency table returns a key of the table whose count no other count exceeds, and it traps on an empty table; no tie-break is promised |
| SwiftCollections.AnyKey | WeatherData/Sources/ResponseModel/NetworkResponseModel.swift:264 | each step of `for (dt, monoday) in weatherData` visits some key not yet visited, in an order the program does not control |
| SwiftCollections.Join | WeatherData/Sources/SubscribedLocation.swift:63 | `joined(separator:)` of no parts is empty, and of one part is that part |
| SwiftCollections.JoinCons | WeatherData/Sources/SubscribedLocation.swift:63 | joining a first part onto a non-empty rest puts exactly one separator between them |
| SwiftCollections.SortBy | WeatherData/Sources/ResponseModel/NetworkResponseModel.swift:281 | the in-place sort leaves the array in non-decreasing key order and a permutation of what it held |
| SwiftCollections.PermutationKeepsDistinctKeys | WeatherData/Sources/ResponseModel/NetworkResponseModel.swift:281 | rearranging records whose days are distinct keeps them distinct, so the sorted output is strictly ascending |
| DailyForecast.PrimaryCodes | WeatherData/Sources/ResponseModel/NetworkResponseModel.swift:276 | the sequence of primary codes `weather[0].id` has one entry per sample, in sample order |
| DailyForecast.DaysMembership | WeatherData/Sources/ResponseModel/NetworkResponseModel.swift:246-255 | a day gets a key exactly when some sample starts on that day |
| DailyForecast.BucketMembership | WeatherData/Sources/ResponseModel/NetworkResponseModel.swift:246-255 | a sample is in the bucket of a day exactly when it is an input sample whose start of day is that day, so every sample lands in exactly one bucket |
| DailyForecast.BucketNonEmpty | WeatherData/Sources/ResponseModel/NetworkResponseModel.swift:251-255 | the bucket of a day is non-empty exactly when the day is a key |
| DailyForecast.BucketConcat | WeatherData/Sources/ResponseModel/NetworkResponseModel.swift:251-252 | buckets keep the input order: the bucket of a concatenation is the concatenation of the buckets |
| DailyForecast.GroupingBucketsNonEmpty | WeatherData/Sources/ResponseModel/NetworkResponseModel.swift:251-255 | every entry of a grouping is non-empty and every sample in it has a primary code, so the reads of `monoday[0]` and `weather[0]` are safe |
| DailyForecast.GroupingIsPartition | WeatherData/Sources/ResponseModel/NetworkResponseModel.swift:242-260 | the bucket sizes of a grouping add up to the number of samples: no sample is dropped or duplicated |
| DailyForecast.CountOneMore | WeatherData/Sources/ResponseModel/NetworkResponseModel.swift:276 | `weatherFrequency[id, default: 0] += 1` turns the count table of some codes into the count table of those codes plus `id` |
| DailyForecast.FrequencyTableNonEmpty | WeatherData/Sources/ResponseModel/NetworkResponseModel.swift:278 | the count table of a non-empty bucket is non-empty, so the force-unwrap after `max(by:)` succeeds |
| DailyForecast.MostFrequentInTable | WeatherData/Sources/ResponseModel/NetworkResponseModel.swift:276-278 | a key of maximal count in the table is a code of the bucket that no other code outnumbers |
| DailyForecast.SummaryFromScan | WeatherData/Sources/ResponseModel/NetworkResponseModel.swift:265-279 | a record built from attained bounds of the scan and a maximal table entry summarises the bucket |
| DailyForecast.SummarisedOneMore | WeatherData/Sources/ResponseModel/NetworkResponseModel.swift:264-279 | appending the summary of one more unvisited day keeps "one summary per visited day" |
| DailyForecast.AllVisited | WeatherData/Sources/ResponseModel/NetworkResponseModel.swift:264-279 | once every key is visited there is one record per key, each a summary of its bucket, with distinct days |
| DailyForecast.SortByDay | WeatherData/Sources/ResponseModel/NetworkResponseModel.swift:281 | `result.sort { $0.dt < $1.dt }` on records with distinct days gives a permutation that is strictly ascending by day |
| DailyForecast.SortedSummaries | WeatherData/Sources/ResponseModel/NetworkResponseModel.swift:279-281 | sorting the per-day records keeps one summary per key and makes the output strictly ascending |
| DailyForecast.SummaryDeterminedUpToTie | WeatherData/Sources/ResponseModel/NetworkResponseModel.swift:265-278 | two summaries of the same bucket agree on day, minimum and maximum, and their codes are equally frequent |
| DailyForecast.UniqueModeIsChosen | WeatherData/Sources/ResponseModel/NetworkResponseModel.swift:278 | when one code is strictly more frequent than all others, that code is the one chosen |
| DailyForecast.SingleSampleDay | WeatherData/Sources/ResponseModel/NetworkResponseModel.swift:265-279 | a day with one sample reports that sample's minimum, maximum and primary code |
| NetworkResponseModel.LocaleName | WeatherData/Sources/ResponseModel/NetworkResponseModel.swift:209-217 | the local name for the region when both the dictionary and the key exist, the plain `name` otherwise |
| NetworkResponseModel.LocaleNameIsAListedName | WeatherData/Sources/ResponseModel/NetworkResponseModel.swift:209-217 | the name shown is the plain name or one of the listed local names |
| NetworkResponseModel.GroupDatesByDay | WeatherData/Sources/ResponseModel/NetworkResponseModel.swift:242-260 | the dictionary has exactly one key per day present in the input, and each key holds exactly that day's samples in input order |
| NetworkResponseModel.SummarizeDay | WeatherData/Sources/ResponseModel/NetworkResponseModel.swift:265-279 | the record for a day has that day's key, a `tempMin` that some sample has and no sample undercuts, a `tempMax` that some sample has and no sample exceeds, and a primary code of the bucket that no other code outnumbers |
| NetworkResponseModel.SummaryFutureWeather | WeatherData/Sources/ResponseModel/NetworkResponseModel.swift:262-283 | for every iteration order: one record per key, each the summary of its key's bucket, strictly ascending by day |
| NetworkResponseModel.DailyResponse | WeatherData/Sources/ResponseModel/NetworkResponseModel.swift:235-239 | one summary per day the samples fall on, of exactly that day's samples, strictly ascending; an empty forecast gives no records |
| WeatherStore.GroupDatesByDay | WeatherZ/ViewModel/WeatherStore.swift:82-100 | the app copy: exactly one key per day present, each holding that day's samples in input order |
| WeatherStore.SummarizeDay | WeatherZ/ViewModel/WeatherStore.swift:105-119 | the app copy: attained minimum and maximum over the bucket, and a primary code of maximal frequency |
| WeatherStore.SummaryFutureWeather | WeatherZ/ViewModel/WeatherStore.swift:102-123 | the app copy: one summary per key, strictly ascending by day, for every iteration order |
| SchemeTable.SchemeTableOneMore | WeatherData/Sources/WeatherData/WeatherData.swift:61-62 | storing one more entry under its type gives the table of one more entry: a later entry overrides an earlier one |
| SchemeTable.SchemeTableUnique | WeatherData/Sources/WeatherData/WeatherData.swift:60-63 | the table is determined by the entries: two tables that both hold each listed type's last entry, and only listed types, are equal |
| WeatherData.GetWeatherType | WeatherData/Sources/WeatherData/WeatherData.swift:88-111 | each type covers exactly its codes: 2xx, 3xx, 5xx and 6xx are the precipitation types; 731/751/761/762 are dust, 771/781 wind and any other 7xx fog; 801/802 are cloudless and 803/804 clouds; every other code, negatives included, is `Clear_sun` |
| WeatherData.PrecipitationByGroupAlone | WeatherData/Sources/WeatherData/WeatherData.swift:89-93 | two codes with the same truncated hundreds group get the same thunderstorm, drizzle, rain or snow type |
| WeatherData.WeatherSchemeManager.constructor | WeatherData/Sources/WeatherData/WeatherData.swift:47-49 | the manager starts with the scheme table of its configuration |
| WeatherData.WeatherSchemeManager.GetDefaultWeatherSchemeColor | WeatherData/Sources/WeatherData/WeatherData.swift:60-63 | each listed type maps to the info of its last entry, and types not listed are absent |
| WeatherData.WeatherSchemeManager.GetSchemeInfo | WeatherData/Sources/WeatherData/WeatherData.swift:70-75 | a type present in the table yields the info of its last configuration entry; a missing type traps, so presence is required |
| AppWeatherType.GetWeatherType | WeatherZ/WeatherType.swift:88-111 | the app copy (`Atomosphere_*` spelling) covers the same code ranges per type |
| AppWeatherType.PrecipitationByGroupAlone | WeatherZ/WeatherType.swift:89-93 | in the app copy, the precipitation types depend on the hundreds group alone |
| AppWeatherType.SameClassificationAsPackage | WeatherZ/WeatherType.swift:88-111 | the app's classifier and the package's agree on every code, case for case |
| AppWeatherType.WeatherSchemeManager.constructor | WeatherZ/WeatherType.swift:47-49 | the app manager starts with the scheme table of its configuration |
| AppWeatherType.WeatherSchemeManager.GetDefaultWeatherSchemeColor | WeatherZ/WeatherType.swift:60-63 | in the app copy, the last entry of a type wins, and unlisted types are absent |
| AppWeatherType.WeatherSchemeManager.GetSchemeInfo | WeatherZ/WeatherType.swift:70-75 | in the app copy, a present type yields its last entry's info; a missing type traps |
| Subscriptions.AsLocation | WeatherData/Sources/SubscribedLocation.swift:48-50 | `location` copies name, local name, city, state, country and coordinates unchanged |
| Subscriptions.AsLocationInjective | WeatherData/Sources/SubscribedLocation.swift:48-50 | no field is lost: equal locations come from equal subscriptions |
| Subscriptions.JoinedParts | WeatherData/Sources/SubscribedLocation.swift:55-63 | joining the present city, the present state and the country with "-" gives one separator between consecutive parts and none elsewhere |
| Subscriptions.BelongInfo | WeatherData/Sources/SubscribedLocation.swift:54-64 | the line is `city-` if present, then `state-` if present, then the country; it ends with the country and begins with the city when there is one |
| AppSubscriptions.AsLocation | WeatherZ/SubscribedLocation.swift:48-50 | the app copy copies every field unchanged |
| AppSubscriptions.AsLocationInjective | WeatherZ/SubscribedLocation.swift:48-50 | in the app copy, equal locations come from equal subscriptions |
| AppSubscriptions.JoinedParts | WeatherZ/SubscribedLocation.swift:55-63 | in the app copy, absent parts add neither a segment nor a separator |
| AppSubscriptions.BelongInfo | WeatherZ/SubscribedLocation.swift:54-64 | the app copy's line: `city-`, then `state-` when present, then the country, which always ends it |
| DateHelper.PercentInBeforeAfter | WeatherData/Helper/Date+Helper.swift:33-42 | traps unless `before < after`; the result lies in [0, 1]; it is 1 after `after` and 0 before `before`; in between, `before + r * (after - before)` is the moment itself |
| DateHelper.FractionBounds | WeatherData/Helper/Date+Helper.swift:40-41 | `(cur - before) / (after - before)` lies in [0, 1] for a moment in the interval and scales back to `cur - before` |
| DateHelper.PercentAtEnds | WeatherData/Helper/Date+Helper.swift:40-41 | the fraction is 0 at `before` and 1 at `after` |
| DateHelper.PercentMonotonic | WeatherData/Helper/Date+Helper.swift:33-42 | a later moment never has a smaller fraction |
| DateHelper.IsNight | WeatherData/Helper/Date+Helper.swift:27-32 | an hour is day exactly when it lies in 6 through 17, and night otherwise; the source promises nothing beyond this, so it has no partner lemma |
| LocationSearch.FoundInSubscription | WeatherUI/Sources/Location/LocationSearch.swift:21-28 | true exactly when some stored location's `name` equals the result's `localeName` and its city, state and country equal the result's; false for an empty list |
| LocationSearch.SubscribedIgnoresOrder | WeatherUI/Sources/Location/LocationSearch.swift:22-27 | the answer depends only on which locations are stored, not on their order |
| LocationSearch.SubscriptionFor | WeatherUI/Sources/Location/LocationSearch.swift:46 | the record built on "Subscribe" takes the result's name, city, state, country and coordinates, with `localeName` as its local name |
| LocationSearch.JustSubscribedFoundOnlyWithoutLocalName | WeatherUI/Sources/Location/LocationSearch.swift:23 | as written, a result just subscribed to is found again exactly when its `localeName` is its plain `name` |
| LocationSearch.LondresNotFoundAfterSubscribing | WeatherUI/Sources/Location/LocationSearch.swift:23 | London with French name "Londres", searched in region "FR", is not found after subscribing |
| LocationSearch.FoundInSubscriptionFixed | WeatherUI/Sources/Location/LocationSearch.swift:21-28 | with the stored `name` compared to the result's `name`: true exactly when a stored location matches |
| LocationSearch.SubscribeThenFound | WeatherUI/Sources/Location/LocationSearch.swift:46 | with the corrected test, a result is always found after subscribing to it, in any region |
| LocationSearch.FixedAgreesWithoutLocalName | WeatherUI/Sources/Location/LocationSearch.swift:23 | where no local name applies, the corrected test and the written one agree |
| SearchCityView.FullName | WeatherZ/SearchCityView.swift:103-109 | the full name starts with the name followed by a line break |
| SearchCityView.FullNameLines | WeatherZ/SearchCityView.swift:103-109 | if no part contains a line break, cutting the full name at line breaks gives back name, state (when present) and country |
| SearchCityView.LocaleName | WeatherZ/SearchCityView.swift:111-118 | the region's local name when listed, the plain name otherwise |
| SearchCityView.LocaleNameIsAListedName | WeatherZ/SearchCityView.swift:111-118 | the name shown is the plain name or a listed local name |
| SearchCityView.FoundInSubscription | WeatherZ/SearchCityView.swift:61-68 | the app copy: true exactly when a stored location's `name` equals `localeName` and city, state and country are equal |
| SearchCityView.SubscribedIgnoresOrder | WeatherZ/SearchCityView.swift:62-67 | the app copy's answer does not depend on the order of the stored locations |
| SearchCityView.SubscriptionFor | WeatherZ/SearchCityView.swift:86 | the app's "Subscribe" record stores the result's name, with `localeName` as the local name |
| SearchCityView.JustSubscribedFoundOnlyWithoutLocalName | WeatherZ/SearchCityView.swift:63 | as written, a fresh subscription is found again exactly when `localeName` is the plain name |
| SearchCityView.LondresNotFoundAfterSubscribing | WeatherZ/SearchCityView.swift:63 | the London/"Londres" instance of that discrepancy in the app copy |
| SearchCityView.FoundInSubscriptionFixed | WeatherZ/SearchCityView.swift:61-68 | the app copy with the corrected test |
| SearchCityView.SubscribeThenFound | WeatherZ/SearchCityView.swift:86 | with the corrected test, subscribing always makes the result found |
| SearchCityView.FixedAgreesWithoutLocalName | WeatherZ/SearchCityView.swift:63 | without an applicable local name the two tests agree |

## Left out

- Networking, JSON decoding and bundle loading are not modelled. The decoded forecast samples and configuration entries are parameters, and the `fatalError` on a missing or undecodable configuration is outside the model.
- Only the fields that the aggregation reads are kept from the forecast response.
- `Calendar`, `Locale` and `Date` are abstracted: the start of day, the region and the hour are parameters.
- `Double` is modelled as exact `real`. Rounding, NaN and infinities are not represented.
- `WeatherStore`'s methods are `async` and the `WeatherSchemeManager.shared` singleton is a static instance. The model has no concurrency and creates a manager with its constructor.
- SwiftData persistence is not modelled. This covers the `@Model` class, its generated `id` (a UUID), `@Query` and `context.insert`. A subscription is a value and the stored subscriptions are a sequence.
- SwiftUI views are not modelled, including the button that `foundInSubscription` disables.
- `Color(hex:)`, the `WeatherType` colour and image accessors and the localized descriptions are not modelled. They are presentation built on `getSchemeInfo`.
- The `WeatherScheme` struct is an unused data shape and is not modelled.
- Strings are sequences of Unicode scalars compared one by one. Swift's `String ==` compares by canonical equivalence, so "Zu\u0308rich" equals "Z\u00FCrich" in Swift but not in the model. This affects the comparisons in `foundInSubscription` and the "exactly when" of `JustSubscribedFoundOnlyWithoutLocalName`, which hold for scalar-wise equality.
- The counts in `weatherFrequency` are unbounded naturals. Swift's `Int` cannot overflow on a forecast of realistic size.
- `SwiftCollections.SortBy`: Swift's sorting algorithm is not the program's. An insertion sort stands for it, and only its outcome is promised.
- `SwiftCollections.MaxByValue` and `SummaryFutureWeather` visit dictionary keys in a nondeterministic order. Which of several equally frequent codes is reported is deliberately left open, because the source fixes no order.

## Findings

| source | as written | input that shows it | evidently intended | confidence | as-written member | corrected member |
|---|---|---|---|---|---|---|
| WeatherUI/Sources/Location/LocationSearch.swift:23 | `foundInSubscription` compares the stored `name`, which "Subscribe" sets to `geoInfo.name`, against `geoInfo.localeName` | `name` "London", `localNames` `["FR": "Londres"]`, region "FR": after subscribing, the result is still not found and the button stays enabled | compare the stored `name` with `geoInfo.name`, so that a result just subscribed to is found in every region | not executed | LocationSearch.LondresNotFoundAfterSubscribing | LocationSearch.SubscribeThenFound |
| WeatherZ/SearchCityView.swift:63 | the app copy has the same comparison of the stored `name` against `localeName` | the same London / "Londres" result in region "FR" | compare the stored `name` with `geoInfo.name` | not executed | SearchCityView.LondresNotFoundAfterSubscribing | SearchCityView.SubscribeThenFound |
