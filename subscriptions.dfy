/**
 The WeatherData package's persisted subscription (`SubscribedLocation`), the
 plain value it is shown as (`Location`), and the "city-state-country" line
 built by `Location.belongInfo`.
 */
module Subscriptions {
  import opened Optional
  import SwiftCollections

  /** A subscribed location as persisted (its generated `id` is not modelled). */
  datatype SubscribedLocation = SubscribedLocation(
    name: string,
    localName: string,
    city: Option<string>,
    state: Option<string>,
    country: string,
    lat: real,
    lon: real)

  /** `Location`: the value a subscription is displayed from. */
  datatype Location = Location(
    name: string,
    localName: string,
    state: Option<string>,
    country: string,
    lat: real,
    lon: real,
    city: Option<string>)

  /** `SubscribedLocation.location`: the same fields, unchanged. */
  function AsLocation(s: SubscribedLocation): (l: Location)
    ensures l.name == s.name && l.localName == s.localName
    ensures l.city == s.city && l.state == s.state && l.country == s.country
    ensures l.lat == s.lat && l.lon == s.lon
  {
    Location(s.name, s.localName, s.state, s.country, s.lat, s.lon, s.city)
  }

  /** Nothing is lost on the way: distinct subscriptions give distinct locations. */
  lemma AsLocationInjective(a: SubscribedLocation, b: SubscribedLocation)
    requires AsLocation(a) == AsLocation(b)
    ensures a == b
  {
  }

  /** The parts `belongInfo` collects, joined with "-", spelled out. */
  lemma JoinedParts(location: Location, belongs: seq<string>)
    requires belongs == (if location.city.Some? then [location.city.value] else [])
                      + (if location.state.Some? then [location.state.value] else [])
                      + [location.country]
    ensures SwiftCollections.Join(belongs, "-")
         == (if location.city.Some? then location.city.value + "-" else "")
          + (if location.state.Some? then location.state.value + "-" else "")
          + location.country
  {
    var country := location.country;
    assert SwiftCollections.Join([country], "-") == country;
    match (location.city, location.state)
    case (Some(city), Some(state)) =>
      assert belongs == [city] + ([state] + [country]);
      SwiftCollections.JoinCons(state, [country], "-");
      SwiftCollections.JoinCons(city, [state] + [country], "-");
    case (Some(city), None) =>
      assert belongs == [city] + [country];
      SwiftCollections.JoinCons(city, [country], "-");
    case (None, Some(state)) =>
      assert belongs == [state] + [country];
      SwiftCollections.JoinCons(state, [country], "-");
    case (None, None) =>
      assert belongs == [country];
  }

  /**
   `Location.belongInfo`: collects the present city, the present state and
   the country, in that order, and joins them with "-". Absent parts add
   neither a segment nor a separator, so the line always ends with the country.
   */
  method BelongInfo(location: Location) returns (r: string)
    ensures r == (if location.city.Some? then location.city.value + "-" else "")
               + (if location.state.Some? then location.state.value + "-" else "")
               + location.country
    ensures |location.country| <= |r| && r[|r| - |location.country|..] == location.country
    ensures location.city.Some? ==> |location.city.value| <= |r| && r[..|location.city.value|] == location.city.value
  {
    var belongs: seq<string> := [];
    if location.city.Some? {
      belongs := belongs + [location.city.value];
    }
    if location.state.Some? {
      belongs := belongs + [location.state.value];
    }
    belongs := belongs + [location.country];
    r := SwiftCollections.Join(belongs, "-");
    JoinedParts(location, belongs);
  }
}
