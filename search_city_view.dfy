/**
 The app target's search screen (`SearchCityView.swift`): its own
 `GeoAPIResponse` helpers (`fullName`, `localeName`) and the search result
 cell's `foundInSubscription` and "Subscribe" record. The stored
 subscriptions are a parameter, as is the current locale's region.
 */
module SearchCityView {
  import opened Optional
  import opened AppSubscriptions

  /** The app target's own geocoding result (`GeoAPIResponse`). */
  datatype GeoAPIResponse = GeoAPIResponse(
    name: string,
    localNames: Option<map<string, string>>,
    lat: real,
    lon: real,
    country: string,
    state: Option<string>,
    city: Option<string>)

  /** `fullName`: name, state when present, and country, one per line. */
  function FullName(geo: GeoAPIResponse): (r: string)
    ensures |r| >= |geo.name| + 1 + |geo.country| && r[..|geo.name|] == geo.name && r[|geo.name|] == '\n'
  {
    if geo.state.Some? then geo.name + "\n" + geo.state.value + "\n" + geo.country
    else geo.name + "\n" + geo.country
  }

  /** `s` cut at every line break. */
  function Lines(s: string): (r: seq<string>)
    ensures |r| >= 1
  {
    if |s| == 0 then [""]
    else
      var rest := Lines(s[1..]);
      if s[0] == '\n' then [""] + rest else [[s[0]] + rest[0]] + rest[1..]
  }

  lemma {:induction false} LinesOfLine(a: string)
    requires '\n' !in a
    ensures Lines(a) == [a]
  {
    if |a| > 0 {
      assert '\n' !in a[1..] by {
        forall k | 0 <= k < |a[1..]| ensures a[1..][k] != '\n' {
          assert a[1..][k] == a[k + 1];
        }
      }
      LinesOfLine(a[1..]);
      assert [a[0]] + a[1..] == a;
    }
  }

  lemma {:induction false} LinesOfJoined(a: string, b: string)
    requires '\n' !in a
    ensures Lines(a + "\n" + b) == [a] + Lines(b)
  {
    if |a| == 0 {
      assert a + "\n" + b == "\n" + b;
      assert ("\n" + b)[1..] == b;
    } else {
      assert '\n' !in a[1..] by {
        forall k | 0 <= k < |a[1..]| ensures a[1..][k] != '\n' {
          assert a[1..][k] == a[k + 1];
        }
      }
      LinesOfJoined(a[1..], b);
      assert (a + "\n" + b)[1..] == a[1..] + "\n" + b;
      assert [a[0]] + a[1..] == a;
    }
  }

  /** `fullName` round-trips: when no part contains a line break, cutting the
      full name at its line breaks gives back the name, the state (when
      present) and the country. */
  lemma FullNameLines(geo: GeoAPIResponse)
    requires '\n' !in geo.name && '\n' !in geo.country
    requires geo.state.Some? ==> '\n' !in geo.state.value
    ensures geo.state.Some? ==> Lines(FullName(geo)) == [geo.name, geo.state.value, geo.country]
    ensures geo.state.None? ==> Lines(FullName(geo)) == [geo.name, geo.country]
  {
    if geo.state.Some? {
      var tail := geo.state.value + "\n" + geo.country;
      LinesOfThree(geo.name, geo.state.value, geo.country);
      assert FullName(geo) == geo.name + "\n" + tail;
    } else {
      LinesOfLine(geo.country);
      LinesOfJoined(geo.name, geo.country);
    }
  }

  lemma LinesOfThree(a: string, b: string, c: string)
    requires '\n' !in a && '\n' !in b && '\n' !in c
    ensures Lines(a + "\n" + (b + "\n" + c)) == [a, b, c]
  {
    LinesOfLine(c);
    LinesOfJoined(b, c);
    LinesOfJoined(a, b + "\n" + c);
  }

  /** `localeName`: the name in the current region's language when the
      response lists one, the plain `name` otherwise. */
  function LocaleName(geo: GeoAPIResponse, region: Option<string>): (r: string)
    ensures (geo.localNames.Some? && region.Some? && region.value in geo.localNames.value)
            ==> r == geo.localNames.value[region.value]
    ensures !(geo.localNames.Some? && region.Some? && region.value in geo.localNames.value) ==> r == geo.name
  {
    if geo.localNames.Some? && region.Some? && region.value in geo.localNames.value
    then geo.localNames.value[region.value]
    else geo.name
  }

  /** The name shown is always either the plain name or one of the listed local names. */
  lemma LocaleNameIsAListedName(geo: GeoAPIResponse, region: Option<string>)
    ensures LocaleName(geo, region) == geo.name
         || (geo.localNames.Some? && LocaleName(geo, region) in geo.localNames.value.Values)
  {
    if LocaleName(geo, region) != geo.name {
      assert geo.localNames.value[region.value] in geo.localNames.value.Values;
    }
  }

  /** The test `foundInSubscription` applies to each stored location: the
      stored `name` against the result's `localeName`, and equal city, state
      (absent equals only absent) and country. */
  predicate MatchesGeo(location: SubscribedLocation, geoInfo: GeoAPIResponse, region: Option<string>)
  {
    && location.name == LocaleName(geoInfo, region)
    && location.city == geoInfo.city
    && location.state == geoInfo.state
    && location.country == geoInfo.country
  }

  /** Some stored location passes the test. */
  predicate Subscribed(subscribedLocations: seq<SubscribedLocation>, geoInfo: GeoAPIResponse, region: Option<string>)
  {
    exists i :: 0 <= i < |subscribedLocations| && MatchesGeo(subscribedLocations[i], geoInfo, region)
  }

  /** `foundInSubscription`, as written: walks the stored locations and stops at
      the first that passes the test. */
  method FoundInSubscription(subscribedLocations: seq<SubscribedLocation>, geoInfo: GeoAPIResponse, region: Option<string>)
    returns (found: bool)
    ensures found <==> Subscribed(subscribedLocations, geoInfo, region)
  {
    for i := 0 to |subscribedLocations|
      invariant forall j :: 0 <= j < i ==> !MatchesGeo(subscribedLocations[j], geoInfo, region)
    {
      var location := subscribedLocations[i];
      if location.name == LocaleName(geoInfo, region) && location.city == geoInfo.city
         && location.state == geoInfo.state && location.country == geoInfo.country
      {
        return true;
      }
    }
    return false;
  }

  /** The answer depends on which locations are stored, not on their order. */
  lemma SubscribedIgnoresOrder(s1: seq<SubscribedLocation>, s2: seq<SubscribedLocation>, geoInfo: GeoAPIResponse, region: Option<string>)
    requires multiset(s1) == multiset(s2)
    ensures Subscribed(s1, geoInfo, region) <==> Subscribed(s2, geoInfo, region)
  {
    if Subscribed(s1, geoInfo, region) {
      var i :| 0 <= i < |s1| && MatchesGeo(s1[i], geoInfo, region);
      assert s1[i] in multiset(s2);
    }
    if Subscribed(s2, geoInfo, region) {
      var i :| 0 <= i < |s2| && MatchesGeo(s2[i], geoInfo, region);
      assert s2[i] in multiset(s1);
    }
  }

  /** The record the "Subscribe" button inserts: the result's own name and
      place, with its `localeName` as the local name. */
  function SubscriptionFor(geoInfo: GeoAPIResponse, region: Option<string>): (location: SubscribedLocation)
    ensures location.name == geoInfo.name && location.localName == LocaleName(geoInfo, region)
    ensures location.city == geoInfo.city && location.state == geoInfo.state && location.country == geoInfo.country
    ensures location.lat == geoInfo.lat && location.lon == geoInfo.lon
  {
    SubscribedLocation(geoInfo.name, LocaleName(geoInfo, region), geoInfo.city, geoInfo.state, geoInfo.country, geoInfo.lat, geoInfo.lon)
  }

  /** As written, a result just subscribed to is found again exactly when its
      `localeName` is its plain `name`: the record stores `name`, the test
      compares it with `localeName`. */
  lemma JustSubscribedFoundOnlyWithoutLocalName(geoInfo: GeoAPIResponse, region: Option<string>)
    ensures Subscribed([SubscriptionFor(geoInfo, region)], geoInfo, region) <==> LocaleName(geoInfo, region) == geoInfo.name
  {
    if LocaleName(geoInfo, region) == geoInfo.name {
      assert MatchesGeo([SubscriptionFor(geoInfo, region)][0], geoInfo, region);
    }
  }

  /** An instance: London, listed with the French name "Londres", searched in
      region "FR", stays subscribable after subscribing. */
  lemma LondresNotFoundAfterSubscribing()
    ensures var geoInfo := GeoAPIResponse("London", Some(map["FR" := "Londres"]), 51.5, -0.1, "GB", None, None);
            !Subscribed([SubscriptionFor(geoInfo, Some("FR"))], geoInfo, Some("FR"))
  {
    var geoInfo := GeoAPIResponse("London", Some(map["FR" := "Londres"]), 51.5, -0.1, "GB", None, None);
    assert LocaleName(geoInfo, Some("FR")) == "Londres";
    JustSubscribedFoundOnlyWithoutLocalName(geoInfo, Some("FR"));
  }

  /** The evidently intended test: the stored `name` against the result's
      plain `name`, which is what subscribing stores. */
  predicate MatchesGeoFixed(location: SubscribedLocation, geoInfo: GeoAPIResponse)
  {
    && location.name == geoInfo.name
    && location.city == geoInfo.city
    && location.state == geoInfo.state
    && location.country == geoInfo.country
  }

  predicate SubscribedFixed(subscribedLocations: seq<SubscribedLocation>, geoInfo: GeoAPIResponse)
  {
    exists i :: 0 <= i < |subscribedLocations| && MatchesGeoFixed(subscribedLocations[i], geoInfo)
  }

  /** `foundInSubscription` with the corrected test. */
  method FoundInSubscriptionFixed(subscribedLocations: seq<SubscribedLocation>, geoInfo: GeoAPIResponse)
    returns (found: bool)
    ensures found <==> SubscribedFixed(subscribedLocations, geoInfo)
  {
    for i := 0 to |subscribedLocations|
      invariant forall j :: 0 <= j < i ==> !MatchesGeoFixed(subscribedLocations[j], geoInfo)
    {
      var location := subscribedLocations[i];
      if location.name == geoInfo.name && location.city == geoInfo.city
         && location.state == geoInfo.state && location.country == geoInfo.country
      {
        return true;
      }
    }
    return false;
  }

  /** With the corrected test, subscribing to a result always makes it found,
      whatever was stored before and whatever the region. */
  lemma SubscribeThenFound(subscribedLocations: seq<SubscribedLocation>, geoInfo: GeoAPIResponse, region: Option<string>)
    ensures SubscribedFixed(subscribedLocations + [SubscriptionFor(geoInfo, region)], geoInfo)
  {
    var s := subscribedLocations + [SubscriptionFor(geoInfo, region)];
    assert MatchesGeoFixed(s[|subscribedLocations|], geoInfo);
  }

  /** Where the result has no local name for the region the two tests agree. */
  lemma FixedAgreesWithoutLocalName(subscribedLocations: seq<SubscribedLocation>, geoInfo: GeoAPIResponse, region: Option<string>)
    requires LocaleName(geoInfo, region) == geoInfo.name
    ensures SubscribedFixed(subscribedLocations, geoInfo) <==> Subscribed(subscribedLocations, geoInfo, region)
  {
    if SubscribedFixed(subscribedLocations, geoInfo) {
      var i :| 0 <= i < |subscribedLocations| && MatchesGeoFixed(subscribedLocations[i], geoInfo);
      assert MatchesGeo(subscribedLocations[i], geoInfo, region);
    }
    if Subscribed(subscribedLocations, geoInfo, region) {
      var i :| 0 <= i < |subscribedLocations| && MatchesGeo(subscribedLocations[i], geoInfo, region);
      assert MatchesGeoFixed(subscribedLocations[i], geoInfo);
    }
  }
}
