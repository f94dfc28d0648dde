/**
 The WeatherUI package's search result cell (`SearchResultCell`): whether a
 geocoding result is already among the subscriptions (`foundInSubscription`)
 and the subscription its "Subscribe" button records. The stored
 subscriptions are a parameter, as is the current locale's region.
 */
module LocationSearch {
  import opened Optional
  import opened NetworkResponseModel
  import opened Subscriptions

  /** The test `foundInSubscription` applies to each stored location: the
      stored `name` against the result's `localeName`, and equal city, state
      (absent equals only absent) and country. */
  predicate MatchesGeo(location: SubscribedLocation, geoInfo: GeoAPIResponse, region: Option<string>)
  {
    && location.name == LocaleName(geoInfo, region)
    && location.city == geoInfo.city
    && location.state == geoInfo.state
    && location.country == geoInfo.country
  }

  /** Some stored location passes the test. */
  predicate Subscribed(subscribedLocations: seq<SubscribedLocation>, geoInfo: GeoAPIResponse, region: Option<string>)
  {
    exists i :: 0 <= i < |subscribedLocations| && MatchesGeo(subscribedLocations[i], geoInfo, region)
  }

  /** `foundInSubscription`, as written: walks the stored locations and stops at
      the first that passes the test. */
  method FoundInSubscription(subscribedLocations: seq<SubscribedLocation>, geoInfo: GeoAPIResponse, region: Option<string>)
    returns (found: bool)
    ensures found <==> Subscribed(subscribedLocations, geoInfo, region)
  {
    for i := 0 to |subscribedLocations|
      invariant forall j :: 0 <= j < i ==> !MatchesGeo(subscribedLocations[j], geoInfo, region)
    {
      var location := subscribedLocations[i];
      if location.name == LocaleName(geoInfo, region) && location.city == geoInfo.city
         && location.state == geoInfo.state && location.country == geoInfo.country
      {
        return true;
      }
    }
    return false;
  }

  /** The answer depends on which locations are stored, not on their order. */
  lemma SubscribedIgnoresOrder(s1: seq<SubscribedLocation>, s2: seq<SubscribedLocation>, geoInfo: GeoAPIResponse, region: Option<string>)
    requires multiset(s1) == multiset(s2)
    ensures Subscribed(s1, geoInfo, region) <==> Subscribed(s2, geoInfo, region)
  {
    if Subscribed(s1, geoInfo, region) {
      var i :| 0 <= i < |s1| && MatchesGeo(s1[i], geoInfo, region);
      assert s1[i] in multiset(s2);
    }
    if Subscribed(s2, geoInfo, region) {
      var i :| 0 <= i < |s2| && MatchesGeo(s2[i], geoInfo, region);
      assert s2[i] in multiset(s1);
    }
  }

  /** The record the "Subscribe" button inserts: the result's own name and
      place, with its `localeName` as the local name. */
  function SubscriptionFor(geoInfo: GeoAPIResponse, region: Option<string>): (location: SubscribedLocation)
    ensures location.name == geoInfo.name && location.localName == LocaleName(geoInfo, region)
    ensures location.city == geoInfo.city && location.state == geoInfo.state && location.country == geoInfo.country
    ensures location.lat == geoInfo.lat && location.lon == geoInfo.lon
  {
    SubscribedLocation(geoInfo.name, LocaleName(geoInfo, region), geoInfo.city, geoInfo.state, geoInfo.country, geoInfo.lat, geoInfo.lon)
  }

  /** As written, a result just subscribed to is found again exactly when its
      `localeName` is its plain `name`: the record stores `name`, the test
      compares it with `localeName`. */
  lemma JustSubscribedFoundOnlyWithoutLocalName(geoInfo: GeoAPIResponse, region: Option<string>)
    ensures Subscribed([SubscriptionFor(geoInfo, region)], geoInfo, region) <==> LocaleName(geoInfo, region) == geoInfo.name
  {
    if LocaleName(geoInfo, region) == geoInfo.name {
      assert MatchesGeo([SubscriptionFor(geoInfo, region)][0], geoInfo, region);
    }
  }

  /** An instance: London, listed with the French name "Londres", searched in
      region "FR", stays subscribable after subscribing. */
  lemma LondresNotFoundAfterSubscribing()
    ensures var geoInfo := GeoAPIResponse("London", Some(map["FR" := "Londres"]), 51.5, -0.1, "GB", None, None);
            !Subscribed([SubscriptionFor(geoInfo, Some("FR"))], geoInfo, Some("FR"))
  {
    var geoInfo := GeoAPIResponse("London", Some(map["FR" := "Londres"]), 51.5, -0.1, "GB", None, None);
    assert LocaleName(geoInfo, Some("FR")) == "Londres";
    JustSubscribedFoundOnlyWithoutLocalName(geoInfo, Some("FR"));
  }

  /** The evidently intended test: the stored `name` against the result's
      plain `name`, which is what subscribing stores. */
  predicate MatchesGeoFixed(location: SubscribedLocation, geoInfo: GeoAPIResponse)
  {
    && location.name == geoInfo.name
    && location.city == geoInfo.city
    && location.state == geoInfo.state
    && location.country == geoInfo.country
  }

  predicate SubscribedFixed(subscribedLocations: seq<SubscribedLocation>, geoInfo: GeoAPIResponse)
  {
    exists i :: 0 <= i < |subscribedLocations| && MatchesGeoFixed(subscribedLocations[i], geoInfo)
  }

  /** `foundInSubscription` with the corrected test. */
  method FoundInSubscriptionFixed(subscribedLocations: seq<SubscribedLocation>, geoInfo: GeoAPIResponse)
    returns (found: bool)
    ensures found <==> SubscribedFixed(subscribedLocations, geoInfo)
  {
    for i := 0 to |subscribedLocations|
      invariant forall j :: 0 <= j < i ==> !MatchesGeoFixed(subscribedLocations[j], geoInfo)
    {
      var location := subscribedLocations[i];
      if location.name == geoInfo.name && location.city == geoInfo.city
         && location.state == geoInfo.state && location.country == geoInfo.country
      {
        return true;
      }
    }
    return false;
  }

  /** With the corrected test, subscribing to a result always makes it found,
      whatever was stored before and whatever the region. */
  lemma SubscribeThenFound(subscribedLocations: seq<SubscribedLocation>, geoInfo: GeoAPIResponse, region: Option<string>)
    ensures SubscribedFixed(subscribedLocations + [SubscriptionFor(geoInfo, region)], geoInfo)
  {
    var s := subscribedLocations + [SubscriptionFor(geoInfo, region)];
    assert MatchesGeoFixed(s[|subscribedLocations|], geoInfo);
  }

  /** Where the result has no local name for the region the two tests agree. */
  lemma FixedAgreesWithoutLocalName(subscribedLocations: seq<SubscribedLocation>, geoInfo: GeoAPIResponse, region: Option<string>)
    requires LocaleName(geoInfo, region) == geoInfo.name
    ensures SubscribedFixed(subscribedLocations, geoInfo) <==> Subscribed(subscribedLocations, geoInfo, region)
  {
    if SubscribedFixed(subscribedLocations, geoInfo) {
      var i :| 0 <= i < |subscribedLocations| && MatchesGeoFixed(subscribedLocations[i], geoInfo);
      assert MatchesGeo(subscribedLocations[i], geoInfo, region);
    }
    if Subscribed(subscribedLocations, geoInfo, region) {
      var i :| 0 <= i < |subscribedLocations| && MatchesGeo(subscribedLocations[i], geoInfo, region);
      assert MatchesGeoFixed(subscribedLocations[i], geoInfo);
    }
  }
}
