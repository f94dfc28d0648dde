/**
 The WeatherData package's weather types: the classification of
 OpenWeatherMap condition codes (`getWeatherType(from:)`) and the scheme table
 kept by `WeatherSchemeManager`. Loading the configuration from the bundle
 and decoding its JSON are outside the model; the decoded entries are a
 parameter.
 */
module WeatherData {
  import opened SchemeTable
  import SwiftCollections

  datatype WeatherType =
    | Thunderstorm
    | Drizzle
    | Rain
    | Snow
    | Atmosphere_dust
    | Atmosphere_fog
    | Atmosphere_wind
    | Clear_sun
    | Clear_cloudless
    | Clear_clouds

  /**
   `getWeatherType(from:)`: switches on the hundreds group `weatherCode / 100`
   (Swift's truncating division), then on the exact code inside groups 7 and 8.
   Every code gets a type: codes the table does not know are `Clear_sun`. The
   postconditions give each type the exact range of codes it covers.
   */
  function GetWeatherType(weatherCode: int): (r: WeatherType)
    ensures r == Thunderstorm <==> 200 <= weatherCode <= 299
    ensures r == Drizzle <==> 300 <= weatherCode <= 399
    ensures r == Rain <==> 500 <= weatherCode <= 599
    ensures r == Snow <==> 600 <= weatherCode <= 699
    ensures r == Atmosphere_dust <==> weatherCode in {731, 751, 761, 762}
    ensures r == Atmosphere_wind <==> weatherCode in {771, 781}
    ensures r == Atmosphere_fog <==> 700 <= weatherCode <= 799 && weatherCode !in {731, 751, 761, 762, 771, 781}
    ensures r == Clear_cloudless <==> weatherCode in {801, 802}
    ensures r == Clear_clouds <==> weatherCode in {803, 804}
    ensures r == Clear_sun <==>
              || weatherCode < 200
              || 400 <= weatherCode <= 499
              || 900 <= weatherCode
              || (800 <= weatherCode <= 899 && weatherCode !in {801, 802, 803, 804})
  {
    match SwiftCollections.TruncatingDivide(weatherCode, 100)
    case 2 => Thunderstorm
    case 3 => Drizzle
    case 5 => Rain
    case 6 => Snow
    case 7 =>
      if weatherCode in {701, 711, 721, 741} then Atmosphere_fog
      else if weatherCode in {731, 751, 761, 762} then Atmosphere_dust
      else if weatherCode in {771, 781} then Atmosphere_wind
      else Atmosphere_fog
    case 8 =>
      if weatherCode == 800 then Clear_sun
      else if weatherCode in {801, 802} then Clear_cloudless
      else if weatherCode in {803, 804} then Clear_clouds
      else Clear_sun
    case _ => Clear_sun
  }

  /** Thunderstorm, drizzle, rain and snow depend on the hundreds group alone:
      two codes of one group get the same of these types. */
  lemma PrecipitationByGroupAlone(c1: int, c2: int)
    requires SwiftCollections.TruncatingDivide(c1, 100) == SwiftCollections.TruncatingDivide(c2, 100)
    requires GetWeatherType(c1) in {Thunderstorm, Drizzle, Rain, Snow}
    ensures GetWeatherType(c2) == GetWeatherType(c1)
  {
  }

  /** `WeatherSchemeManager`: holds the scheme table built once from the
      decoded configuration `config`. */
  class WeatherSchemeManager {
    var weatherSchemeDict: map<WeatherType, WeatherSchemeInfo>
    ghost const config: seq<WeatherSchemeDTO<WeatherType>>

    ghost predicate Valid()
      reads this
    {
      IsSchemeTable(config, weatherSchemeDict)
    }

    /** `init()`: the table is `getDefaultWeatherSchemeColor()` of the decoded entries. */
    constructor (weatherData: seq<WeatherSchemeDTO<WeatherType>>)
      ensures config == weatherData && Valid()
    {
      var table := GetDefaultWeatherSchemeColor(weatherData);
      config := weatherData;
      weatherSchemeDict := table;
    }

    /** The loop of `getDefaultWeatherSchemeColor`: stores each entry's info
        under its type, so a later entry for a type overrides an earlier one. */
    static method GetDefaultWeatherSchemeColor(weatherData: seq<WeatherSchemeDTO<WeatherType>>)
      returns (schemeDict: map<WeatherType, WeatherSchemeInfo>)
      ensures IsSchemeTable(weatherData, schemeDict)
    {
      schemeDict := map[];
      for k := 0 to |weatherData|
        invariant IsSchemeTable(weatherData[..k], schemeDict)
      {
        var monoWeather := weatherData[k];
        SchemeTableOneMore(weatherData, k, schemeDict);
        schemeDict := schemeDict[monoWeather.weatherType := WeatherSchemeInfo(
          monoWeather.primaryColor, monoWeather.secondaryColor, monoWeather.imageAuto,
          monoWeather.imageDay, monoWeather.imageNight, monoWeather.backgound)];
      }
      assert weatherData[..|weatherData|] == weatherData;
    }

    /** `getSchemeInfo(weatherType:)`: the stored info, which is that of the
        type's last configuration entry; a type missing from the table traps. */
    method GetSchemeInfo(weatherType: WeatherType) returns (res: WeatherSchemeInfo)
      requires Valid()
      requires weatherType in weatherSchemeDict
      ensures exists i :: 0 <= i < |config| && config[i].weatherType == weatherType
                && LastOfType(config, i) && res == InfoOf(config[i])
    {
      res := weatherSchemeDict[weatherType];
      ghost var i :| 0 <= i < |config| && config[i].weatherType == weatherType;
      LastEntryExists(config, i);
    }
  }
}
