/**
 The WeatherData package's response model: `GeoAPIResponse.localeName` and the
 daily aggregation of the 3-hour forecast (`groupDatesByDay`,
 `summaryFutureWeather` and `ForecastResponse.dailyResponse`).

 `Calendar.current.startOfDay(for:)` is the parameter `startOfDay`, and the
 current locale's region is the parameter `region`.
 */
module NetworkResponseModel {
  import opened Optional
  import opened DailyForecast
  import SwiftCollections

  /** A result of the geocoding API (`GeoAPIResponse`). */
  datatype GeoAPIResponse = GeoAPIResponse(
    name: string,
    localNames: Option<map<string, string>>,
    lat: real,
    lon: real,
    country: string,
    state: Option<string>,
    city: Option<string>)

  /** `localeName`: the name in the current region's language when the
      response lists one, the plain `name` otherwise. */
  function LocaleName(geo: GeoAPIResponse, region: Option<string>): (r: string)
    ensures (geo.localNames.Some? && region.Some? && region.value in geo.localNames.value)
            ==> r == geo.localNames.value[region.value]
    ensures !(geo.localNames.Some? && region.Some? && region.value in geo.localNames.value) ==> r == geo.name
  {
    if geo.localNames.Some? && region.Some? && region.value in geo.localNames.value
    then geo.localNames.value[region.value]
    else geo.name
  }

  /** The name shown is always either the plain name or one of the listed local names. */
  lemma LocaleNameIsAListedName(geo: GeoAPIResponse, region: Option<string>)
    ensures LocaleName(geo, region) == geo.name
         || (geo.localNames.Some? && LocaleName(geo, region) in geo.localNames.value.Values)
  {
    if LocaleName(geo, region) != geo.name {
      assert geo.localNames.value[region.value] in geo.localNames.value.Values;
    }
  }

  /** `groupDatesByDay`: walks the samples once, appending each to the entry of
      its start of day, or inserting a new entry `[date]` when the day is new. */
  method GroupDatesByDay(dates: seq<FutureWeather>, startOfDay: real -> real)
    returns (groupedDates: map<real, seq<FutureWeather>>)
    ensures IsGrouping(dates, startOfDay, groupedDates)
  {
    groupedDates := map[];
    for i := 0 to |dates|
      invariant IsGrouping(dates[..i], startOfDay, groupedDates)
    {
      var date := dates[i];
      var day := startOfDay(date.dt);
      assert dates[..i + 1][..i] == dates[..i];
      if day in groupedDates {
        groupedDates := groupedDates[day := groupedDates[day] + [date]];
      } else {
        BucketNonEmpty(dates[..i], startOfDay, day);
        groupedDates := groupedDates[day := [date]];
      }
    }
    assert dates[..|dates|] == dates;
  }

  /** The body of `summaryFutureWeather`'s outer loop for one day: the running
      minimum and maximum start at the first sample, every primary code is
      counted in `weatherFrequency`, and the most frequent code is taken. */
  method SummarizeDay(dt: real, monoday: seq<FutureWeather>) returns (r: DailyGeneratedResponse)
    requires |monoday| > 0 && AllHavePrimaryWeather(monoday)
    ensures IsDailySummary(dt, monoday, r)
  {
    var minTemp := monoday[0].tempMin;
    var maxTemp := monoday[0].tempMax;
    var weatherFrequency: map<int, nat> := map[];
    ghost var minAt, maxAt := 0, 0;
    ghost var codes := PrimaryCodes(monoday);
    for j := 0 to |monoday|
      invariant 0 <= minAt < |monoday| && minTemp == monoday[minAt].tempMin
      invariant 0 <= maxAt < |monoday| && maxTemp == monoday[maxAt].tempMax
      invariant forall i :: 0 <= i < j ==> minTemp <= monoday[i].tempMin && monoday[i].tempMax <= maxTemp
      invariant IsFrequencyTable(weatherFrequency, codes[..j])
    {
      var monoWeather := monoday[j];
      if monoWeather.tempMin < minTemp {
        minTemp, minAt := monoWeather.tempMin, j;
      }
      if monoWeather.tempMax > maxTemp {
        maxTemp, maxAt := monoWeather.tempMax, j;
      }
      var id := monoWeather.weatherIds[0];
      CountOneMore(weatherFrequency, codes[..j], id);
      weatherFrequency := weatherFrequency[id := (if id in weatherFrequency then weatherFrequency[id] else 0) + 1];
      assert codes[..j + 1] == codes[..j] + [id];
    }
    assert codes[..|monoday|] == codes;
    FrequencyTableNonEmpty(weatherFrequency, codes);
    var mostCommonWeatherID := SwiftCollections.MaxByValue(weatherFrequency);
    r := DailyGeneratedResponse(dt, maxTemp, minTemp, mostCommonWeatherID);
    SummaryFromScan(dt, monoday, r, minAt, maxAt, weatherFrequency);
  }

  /** `summaryFutureWeather`: one record per dictionary entry, produced in the
      dictionary's (unspecified) iteration order, then sorted by day. */
  method SummaryFutureWeather(weatherData: map<real, seq<FutureWeather>>) returns (result: seq<DailyGeneratedResponse>)
    requires forall day :: day in weatherData ==> |weatherData[day]| > 0 && AllHavePrimaryWeather(weatherData[day])
    ensures IsSummaryOf(weatherData, result)
  {
    result := [];
    var remaining := weatherData.Keys;
    while remaining != {}
      invariant SummarisedExcept(weatherData, remaining, result)
      decreases remaining
    {
      var dt := SwiftCollections.AnyKey(remaining);
      var daily := SummarizeDay(dt, weatherData[dt]);
      SummarisedOneMore(weatherData, remaining, result, dt, daily);
      result := result + [daily];
      remaining := remaining - {dt};
    }
    AllVisited(weatherData, result);
    ghost var unsorted := result;
    result := SortByDay(result);
    SortedSummaries(weatherData, unsorted, result);
  }

  /** `ForecastResponse.dailyResponse`: groups the forecast's samples by day and
      summarises each day. */
  method DailyResponse(list: seq<FutureWeather>, startOfDay: real -> real) returns (result: seq<DailyGeneratedResponse>)
    requires AllHavePrimaryWeather(list)
    ensures IsDailyResponse(list, startOfDay, result)
    ensures list == [] ==> result == []
  {
    var grouped := GroupDatesByDay(list, startOfDay);
    GroupingBucketsNonEmpty(list, startOfDay, grouped);
    result := SummaryFutureWeather(grouped);
    assert |grouped| == |grouped.Keys|;
  }
}
