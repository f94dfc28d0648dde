/**
 What the daily aggregation of a 3-hour forecast means, independent of how
 either copy of the code computes it: which samples form the bucket of a day,
 and when a record summarises a bucket. Both the package's
 `NetworkResponseModel` and the app's `WeatherStore` are proved against these
 definitions.
 */
module DailyForecast {
  import SwiftCollections

  /** One 3-hour forecast sample (`ForecastResponse.FutureWeather`), reduced to
      the fields the aggregation reads: `dt` (seconds since 1970),
      `main.tempMin`, `main.tempMax` and the `id` of each `weather` entry. */
  datatype FutureWeather = FutureWeather(dt: real, tempMin: real, tempMax: real, weatherIds: seq<int>)

  /** `DailyGeneratedResponse`: one record per calendar day. */
  datatype DailyGeneratedResponse = DailyGeneratedResponse(dt: real, tempMax: real, tempMin: real, weatherID: int)

  /** The day of a record, the key the results are sorted by. */
  function DayOf(r: DailyGeneratedResponse): real
  {
    r.dt
  }

  /** Every sample carries a primary weather entry (`weather[0]` exists). */
  predicate AllHavePrimaryWeather(samples: seq<FutureWeather>)
  {
    forall i :: 0 <= i < |samples| ==> |samples[i].weatherIds| > 0
  }

  /** The days (values of `startOfDay`) that the samples fall on. */
  function Days(dates: seq<FutureWeather>, startOfDay: real -> real): set<real>
  {
    if |dates| == 0 then {}
    else Days(dates[..|dates| - 1], startOfDay) + {startOfDay(dates[|dates| - 1].dt)}
  }

  /** The samples that fall on `day`, in input order. */
  function Bucket(dates: seq<FutureWeather>, startOfDay: real -> real, day: real): seq<FutureWeather>
  {
    if |dates| == 0 then []
    else
      var last := dates[|dates| - 1];
      Bucket(dates[..|dates| - 1], startOfDay, day) + (if startOfDay(last.dt) == day then [last] else [])
  }

  /** `grouped` has one entry per day present in `dates`, holding that day's bucket. */
  ghost predicate IsGrouping(dates: seq<FutureWeather>, startOfDay: real -> real, grouped: map<real, seq<FutureWeather>>)
  {
    && grouped.Keys == Days(dates, startOfDay)
    && forall day :: day in grouped ==> grouped[day] == Bucket(dates, startOfDay, day)
  }

  /** The primary condition code (`weather[0].id`) of each sample. */
  function PrimaryCodes(samples: seq<FutureWeather>): (codes: seq<int>)
    requires AllHavePrimaryWeather(samples)
    ensures |codes| == |samples|
    ensures forall i :: 0 <= i < |samples| ==> codes[i] == samples[i].weatherIds[0]
  {
    if |samples| == 0 then []
    else PrimaryCodes(samples[..|samples| - 1]) + [samples[|samples| - 1].weatherIds[0]]
  }

  /** How often `c` occurs in `codes`. */
  function Occurrences(codes: seq<int>, c: int): nat
  {
    if |codes| == 0 then 0
    else Occurrences(codes[..|codes| - 1], c) + (if codes[|codes| - 1] == c then 1 else 0)
  }

  /** `table` counts the codes: it holds exactly the codes that occur, each with its count. */
  ghost predicate IsFrequencyTable(table: map<int, nat>, codes: seq<int>)
  {
    && (forall c :: c in table ==> table[c] == Occurrences(codes, c) && table[c] > 0)
    && (forall c :: c !in table ==> Occurrences(codes, c) == 0)
  }

  /**
   `r` summarises the non-empty bucket of `day`: its minimum is the least
   `tempMin` of the bucket, its maximum the greatest `tempMax`, and its
   `weatherID` is a primary code of the bucket that no other code outnumbers.
   Which of several equally frequent codes is chosen is left open.
   */
  ghost predicate IsDailySummary(day: real, bucket: seq<FutureWeather>, r: DailyGeneratedResponse)
  {
    && |bucket| > 0
    && AllHavePrimaryWeather(bucket)
    && r.dt == day
    && (exists i :: 0 <= i < |bucket| && r.tempMin == bucket[i].tempMin)
    && (forall i :: 0 <= i < |bucket| ==> r.tempMin <= bucket[i].tempMin)
    && (exists i :: 0 <= i < |bucket| && r.tempMax == bucket[i].tempMax)
    && (forall i :: 0 <= i < |bucket| ==> bucket[i].tempMax <= r.tempMax)
    && r.weatherID in PrimaryCodes(bucket)
    && (forall c :: Occurrences(PrimaryCodes(bucket), c) <= Occurrences(PrimaryCodes(bucket), r.weatherID))
  }

  ghost predicate StrictlyAscending(rs: seq<DailyGeneratedResponse>)
  {
    forall p, q :: 0 <= p < q < |rs| ==> rs[p].dt < rs[q].dt
  }

  /** `result` holds one summary per day of `grouped`, in ascending order of day. */
  ghost predicate IsSummaryOf(grouped: map<real, seq<FutureWeather>>, result: seq<DailyGeneratedResponse>)
  {
    && |result| == |grouped|
    && StrictlyAscending(result)
    && (forall i :: 0 <= i < |result| ==> result[i].dt in grouped && IsDailySummary(result[i].dt, grouped[result[i].dt], result[i]))
    && (forall day :: day in grouped ==> exists i :: 0 <= i < |result| && result[i].dt == day)
  }

  /** `result` is the daily forecast of the samples `list`: one summary per day
      the samples fall on, of exactly that day's samples, in ascending order. */
  ghost predicate IsDailyResponse(list: seq<FutureWeather>, startOfDay: real -> real, result: seq<DailyGeneratedResponse>)
  {
    && |result| == |Days(list, startOfDay)|
    && StrictlyAscending(result)
    && (forall i :: 0 <= i < |result| ==>
          result[i].dt in Days(list, startOfDay)
          && IsDailySummary(result[i].dt, Bucket(list, startOfDay, result[i].dt), result[i]))
    && (forall day :: day in Days(list, startOfDay) ==> exists i :: 0 <= i < |result| && result[i].dt == day)
  }

  // ---------------------------------------------------------------------------
  // Buckets

  /** A day is present exactly when some sample falls on it. */
  lemma {:induction false} DaysMembership(dates: seq<FutureWeather>, startOfDay: real -> real, day: real)
    ensures day in Days(dates, startOfDay) <==> exists i :: 0 <= i < |dates| && startOfDay(dates[i].dt) == day
  {
    if |dates| > 0 {
      var init := dates[..|dates| - 1];
      DaysMembership(init, startOfDay, day);
      if day in Days(init, startOfDay) {
        var i :| 0 <= i < |init| && startOfDay(init[i].dt) == day;
        assert dates[i] == init[i];
      }
      if exists i :: 0 <= i < |dates| && startOfDay(dates[i].dt) == day {
        var i :| 0 <= i < |dates| && startOfDay(dates[i].dt) == day;
        if i < |init| {
          assert init[i] == dates[i];
        }
      }
    }
  }

  /** A sample is in the bucket of `day` exactly when it is one of the input
      samples and falls on `day`: every sample lands in its own day's bucket and
      in no other. */
  lemma {:induction false} BucketMembership(dates: seq<FutureWeather>, startOfDay: real -> real, day: real, x: FutureWeather)
    ensures x in Bucket(dates, startOfDay, day) <==> x in dates && startOfDay(x.dt) == day
  {
    if |dates| > 0 {
      var init := dates[..|dates| - 1];
      BucketMembership(init, startOfDay, day, x);
      assert dates == init + [dates[|dates| - 1]];
    }
  }

  /** The bucket of a day is non-empty exactly when the day is present. */
  lemma {:induction false} BucketNonEmpty(dates: seq<FutureWeather>, startOfDay: real -> real, day: real)
    ensures |Bucket(dates, startOfDay, day)| > 0 <==> day in Days(dates, startOfDay)
  {
    if |dates| > 0 {
      BucketNonEmpty(dates[..|dates| - 1], startOfDay, day);
    }
  }

  /** Bucketing commutes with concatenation: samples keep their input order
      within a bucket. */
  lemma {:induction false} BucketConcat(a: seq<FutureWeather>, b: seq<FutureWeather>, startOfDay: real -> real, day: real)
    ensures Bucket(a + b, startOfDay, day) == Bucket(a, startOfDay, day) + Bucket(b, startOfDay, day)
  {
    if |b| == 0 {
      assert a + b == a;
    } else {
      var init := b[..|b| - 1];
      BucketConcat(a, init, startOfDay, day);
      assert (a + b)[..|a + b| - 1] == a + init;
    }
  }

  /** Every bucket of a grouping is non-empty and, when every sample has a
      primary weather entry, so do the samples of each bucket. */
  lemma GroupingBucketsNonEmpty(dates: seq<FutureWeather>, startOfDay: real -> real, grouped: map<real, seq<FutureWeather>>)
    requires IsGrouping(dates, startOfDay, grouped)
    requires AllHavePrimaryWeather(dates)
    ensures forall day :: day in grouped ==> |grouped[day]| > 0 && AllHavePrimaryWeather(grouped[day])
  {
    forall day | day in grouped
      ensures |grouped[day]| > 0 && AllHavePrimaryWeather(grouped[day])
    {
      BucketNonEmpty(dates, startOfDay, day);
      var b := grouped[day];
      forall i | 0 <= i < |b| ensures |b[i].weatherIds| > 0 {
        BucketMembership(dates, startOfDay, day, b[i]);
        var j :| 0 <= j < |dates| && dates[j] == b[i];
      }
    }
  }

  /** `result` holds one summary for each day of `grouped` outside `remaining`
      (the days `summaryFutureWeather` has already visited), in visiting order. */
  ghost predicate SummarisedExcept(grouped: map<real, seq<FutureWeather>>, remaining: set<real>, result: seq<DailyGeneratedResponse>)
  {
    && remaining <= grouped.Keys
    && |result| + |remaining| == |grouped|
    && (forall i :: 0 <= i < |result| ==>
          result[i].dt in grouped && result[i].dt !in remaining
          && IsDailySummary(result[i].dt, grouped[result[i].dt], result[i]))
    && (forall day :: day in grouped && day !in remaining ==> exists i :: 0 <= i < |result| && result[i].dt == day)
    && SwiftCollections.DistinctKeys(result, DayOf)
  }

  /** Visiting one more day and appending its summary keeps `SummarisedExcept`. */
  lemma SummarisedOneMore(grouped: map<real, seq<FutureWeather>>, remaining: set<real>, result: seq<DailyGeneratedResponse>,
                          dt: real, daily: DailyGeneratedResponse)
    requires SummarisedExcept(grouped, remaining, result)
    requires dt in remaining && IsDailySummary(dt, grouped[dt], daily)
    ensures SummarisedExcept(grouped, remaining - {dt}, result + [daily])
  {
    var after := result + [daily];
    forall day | day in grouped && day !in remaining - {dt}
      ensures exists i :: 0 <= i < |after| && after[i].dt == day
    {
      if day == dt {
        assert after[|result|].dt == day;
      } else {
        var i :| 0 <= i < |result| && result[i].dt == day;
        assert after[i].dt == day;
      }
    }
  }

  /** `result.sort { $0.dt < $1.dt }` on records whose days are distinct. */
  method SortByDay(records: seq<DailyGeneratedResponse>) returns (sorted: seq<DailyGeneratedResponse>)
    requires SwiftCollections.DistinctKeys(records, DayOf)
    ensures multiset(sorted) == multiset(records)
    ensures StrictlyAscending(sorted)
  {
    var a := new DailyGeneratedResponse[|records|](i requires 0 <= i < |records| => records[i]);
    assert a[..] == records;
    SwiftCollections.SortBy(a, DayOf);
    sorted := a[..];
    SwiftCollections.PermutationKeepsDistinctKeys(records, sorted, DayOf);
  }

  /** Once every day is visited, each day has exactly one summary. */
  lemma AllVisited(grouped: map<real, seq<FutureWeather>>, result: seq<DailyGeneratedResponse>)
    requires SummarisedExcept(grouped, {}, result)
    ensures |result| == |grouped|
    ensures forall i :: 0 <= i < |result| ==>
              result[i].dt in grouped && IsDailySummary(result[i].dt, grouped[result[i].dt], result[i])
    ensures forall day :: day in grouped ==> exists i :: 0 <= i < |result| && result[i].dt == day
    ensures SwiftCollections.DistinctKeys(result, DayOf)
  {
  }

  /** Putting one summary per day into ascending order of day gives the summary
      of the whole grouping. */
  lemma SortedSummaries(grouped: map<real, seq<FutureWeather>>, unsorted: seq<DailyGeneratedResponse>,
                        sorted: seq<DailyGeneratedResponse>)
    requires |unsorted| == |grouped|
    requires forall i :: 0 <= i < |unsorted| ==>
               unsorted[i].dt in grouped && IsDailySummary(unsorted[i].dt, grouped[unsorted[i].dt], unsorted[i])
    requires forall day :: day in grouped ==> exists i :: 0 <= i < |unsorted| && unsorted[i].dt == day
    requires multiset(sorted) == multiset(unsorted)
    requires StrictlyAscending(sorted)
    ensures IsSummaryOf(grouped, sorted)
  {
    assert |sorted| == |multiset(sorted)| == |multiset(unsorted)| == |unsorted|;
    forall i | 0 <= i < |sorted|
      ensures sorted[i].dt in grouped && IsDailySummary(sorted[i].dt, grouped[sorted[i].dt], sorted[i])
    {
      assert sorted[i] in multiset(unsorted);
      var j :| 0 <= j < |unsorted| && unsorted[j] == sorted[i];
    }
    forall day | day in grouped ensures exists i :: 0 <= i < |sorted| && sorted[i].dt == day {
      var j :| 0 <= j < |unsorted| && unsorted[j].dt == day;
      assert unsorted[j] in multiset(sorted);
      var i :| 0 <= i < |sorted| && sorted[i] == unsorted[j];
    }
  }

  // ---------------------------------------------------------------------------
  // Partition: bucket sizes add up to the number of samples

  /** The total size of the buckets of `days`. */
  function TotalBucketSize(dates: seq<FutureWeather>, startOfDay: real -> real, days: seq<real>): nat
  {
    if |days| == 0 then 0
    else TotalBucketSize(dates, startOfDay, days[..|days| - 1]) + |Bucket(dates, startOfDay, days[|days| - 1])|
  }

  /** How many entries of `days` equal `day`. */
  function CountDay(days: seq<real>, day: real): nat
  {
    if |days| == 0 then 0
    else CountDay(days[..|days| - 1], day) + (if days[|days| - 1] == day then 1 else 0)
  }

  lemma {:induction false} CountDistinctDay(days: seq<real>, day: real)
    requires forall p, q :: 0 <= p < q < |days| ==> days[p] != days[q]
    ensures CountDay(days, day) == if day in days then 1 else 0
  {
    if |days| > 0 {
      var init := days[..|days| - 1];
      CountDistinctDay(init, day);
      assert days == init + [days[|days| - 1]];
      if days[|days| - 1] == day {
        assert day !in init;
      }
    }
  }

  lemma {:induction false} TotalBucketSizeSnoc(dates: seq<FutureWeather>, x: FutureWeather, startOfDay: real -> real, days: seq<real>)
    ensures TotalBucketSize(dates + [x], startOfDay, days)
         == TotalBucketSize(dates, startOfDay, days) + CountDay(days, startOfDay(x.dt))
  {
    if |days| > 0 {
      TotalBucketSizeSnoc(dates, x, startOfDay, days[..|days| - 1]);
      assert (dates + [x])[..|dates|] == dates;
    }
  }

  lemma {:induction false} TotalBucketSizeOfNothing(startOfDay: real -> real, days: seq<real>)
    ensures TotalBucketSize([], startOfDay, days) == 0
  {
    if |days| > 0 {
      TotalBucketSizeOfNothing(startOfDay, days[..|days| - 1]);
    }
  }

  /** Over any list of distinct days that covers every sample, the bucket sizes
      add up to the number of samples: no sample is dropped or counted twice. */
  lemma {:induction false} BucketSizesSum(dates: seq<FutureWeather>, startOfDay: real -> real, days: seq<real>)
    requires forall p, q :: 0 <= p < q < |days| ==> days[p] != days[q]
    requires forall i :: 0 <= i < |dates| ==> startOfDay(dates[i].dt) in days
    ensures TotalBucketSize(dates, startOfDay, days) == |dates|
  {
    if |dates| == 0 {
      TotalBucketSizeOfNothing(startOfDay, days);
    } else {
      var init, x := dates[..|dates| - 1], dates[|dates| - 1];
      assert dates == init + [x];
      BucketSizesSum(init, startOfDay, days);
      TotalBucketSizeSnoc(init, x, startOfDay, days);
      CountDistinctDay(days, startOfDay(x.dt));
    }
  }

  /** The total size of the entries of `grouped` listed in `days`. */
  function GroupSize(grouped: map<real, seq<FutureWeather>>, days: seq<real>): nat
    requires forall i :: 0 <= i < |days| ==> days[i] in grouped
  {
    if |days| == 0 then 0
    else GroupSize(grouped, days[..|days| - 1]) + |grouped[days[|days| - 1]]|
  }

  /** A grouping partitions its input: listing its days once each, the sizes of
      their buckets add up to the number of samples. */
  lemma {:induction false} GroupingIsPartition(dates: seq<FutureWeather>, startOfDay: real -> real,
                                               grouped: map<real, seq<FutureWeather>>, days: seq<real>)
    requires IsGrouping(dates, startOfDay, grouped)
    requires forall p, q :: 0 <= p < q < |days| ==> days[p] != days[q]
    requires forall i :: 0 <= i < |days| ==> days[i] in grouped
    requires forall day :: day in grouped ==> day in days
    ensures GroupSize(grouped, days) == |dates|
  {
    forall i | 0 <= i < |dates| ensures startOfDay(dates[i].dt) in days {
      DaysMembership(dates, startOfDay, startOfDay(dates[i].dt));
    }
    BucketSizesSum(dates, startOfDay, days);
    GroupSizeIsTotal(dates, startOfDay, grouped, days);
  }

  lemma {:induction false} GroupSizeIsTotal(dates: seq<FutureWeather>, startOfDay: real -> real,
                                            grouped: map<real, seq<FutureWeather>>, days: seq<real>)
    requires IsGrouping(dates, startOfDay, grouped)
    requires forall i :: 0 <= i < |days| ==> days[i] in grouped
    ensures GroupSize(grouped, days) == TotalBucketSize(dates, startOfDay, days)
  {
    if |days| > 0 {
      GroupSizeIsTotal(dates, startOfDay, grouped, days[..|days| - 1]);
    }
  }

  // ---------------------------------------------------------------------------
  // Counting codes

  lemma OccurrencesSnoc(codes: seq<int>, x: int, c: int)
    ensures Occurrences(codes + [x], c) == Occurrences(codes, c) + (if x == c then 1 else 0)
  {
    assert (codes + [x])[..|codes|] == codes;
  }

  /** Counting one more `id` (`weatherFrequency[id, default: 0] += 1`) keeps the table exact. */
  lemma CountOneMore(table: map<int, nat>, codes: seq<int>, id: int)
    requires IsFrequencyTable(table, codes)
    ensures IsFrequencyTable(table[id := (if id in table then table[id] else 0) + 1], codes + [id])
  {
    forall c ensures Occurrences(codes + [id], c) == Occurrences(codes, c) + (if id == c then 1 else 0) {
      OccurrencesSnoc(codes, id, c);
    }
  }

  /** The table of a non-empty list of codes has an entry, so `max(by:)` finds one. */
  lemma FrequencyTableNonEmpty(table: map<int, nat>, codes: seq<int>)
    requires IsFrequencyTable(table, codes) && |codes| > 0
    ensures |table| > 0
  {
    OccurrencesPositive(codes, codes[0]);
    assert codes[0] in table;
  }

  /** The entry of largest count in the table is a code that occurs and that no
      other code outnumbers. */
  lemma MostFrequentInTable(table: map<int, nat>, codes: seq<int>, id: int)
    requires IsFrequencyTable(table, codes)
    requires id in table && forall c :: c in table ==> table[c] <= table[id]
    ensures id in codes
    ensures forall c :: Occurrences(codes, c) <= Occurrences(codes, id)
  {
    OccurrencesPositive(codes, id);
  }

  /** What one scan of a day's samples establishes makes its record a summary:
      the running minimum and maximum are attained and bound every sample, and
      the code is a largest entry of the frequency table of the whole day. */
  lemma SummaryFromScan(day: real, bucket: seq<FutureWeather>, r: DailyGeneratedResponse,
                        minAt: int, maxAt: int, table: map<int, nat>)
    requires |bucket| > 0 && AllHavePrimaryWeather(bucket) && r.dt == day
    requires 0 <= minAt < |bucket| && r.tempMin == bucket[minAt].tempMin
    requires 0 <= maxAt < |bucket| && r.tempMax == bucket[maxAt].tempMax
    requires forall i :: 0 <= i < |bucket| ==> r.tempMin <= bucket[i].tempMin && bucket[i].tempMax <= r.tempMax
    requires IsFrequencyTable(table, PrimaryCodes(bucket))
    requires r.weatherID in table && forall c :: c in table ==> table[c] <= table[r.weatherID]
    ensures IsDailySummary(day, bucket, r)
  {
    MostFrequentInTable(table, PrimaryCodes(bucket), r.weatherID);
  }

  /** A code occurs exactly when it has a positive count. */
  lemma {:induction false} OccurrencesPositive(codes: seq<int>, c: int)
    ensures Occurrences(codes, c) > 0 <==> c in codes
  {
    if |codes| > 0 {
      var init := codes[..|codes| - 1];
      OccurrencesPositive(init, c);
      assert codes == init + [codes[|codes| - 1]];
    }
  }

  // ---------------------------------------------------------------------------
  // What a summary pins down

  /** Two summaries of the same bucket agree on day, minimum and maximum, and
      their codes are equally frequent: only the tie-break is left open. */
  lemma SummaryDeterminedUpToTie(day: real, bucket: seq<FutureWeather>, r1: DailyGeneratedResponse, r2: DailyGeneratedResponse)
    requires IsDailySummary(day, bucket, r1) && IsDailySummary(day, bucket, r2)
    ensures r1.dt == r2.dt && r1.tempMin == r2.tempMin && r1.tempMax == r2.tempMax
    ensures Occurrences(PrimaryCodes(bucket), r1.weatherID) == Occurrences(PrimaryCodes(bucket), r2.weatherID)
  {
    var i1 :| 0 <= i1 < |bucket| && r1.tempMin == bucket[i1].tempMin;
    var i2 :| 0 <= i2 < |bucket| && r2.tempMin == bucket[i2].tempMin;
    var j1 :| 0 <= j1 < |bucket| && r1.tempMax == bucket[j1].tempMax;
    var j2 :| 0 <= j2 < |bucket| && r2.tempMax == bucket[j2].tempMax;
  }

  /** When one code outnumbers all others, the summary's code is that one. */
  lemma UniqueModeIsChosen(day: real, bucket: seq<FutureWeather>, r: DailyGeneratedResponse, mode: int)
    requires IsDailySummary(day, bucket, r)
    requires forall c :: c != mode ==> Occurrences(PrimaryCodes(bucket), c) < Occurrences(PrimaryCodes(bucket), mode)
    ensures r.weatherID == mode
  {
    assert Occurrences(PrimaryCodes(bucket), mode) <= Occurrences(PrimaryCodes(bucket), r.weatherID);
  }

  /** A single-sample day reports that sample's temperatures and code. */
  lemma SingleSampleDay(day: real, s: FutureWeather, r: DailyGeneratedResponse)
    requires IsDailySummary(day, [s], r)
    ensures r.dt == day && r.tempMin == s.tempMin && r.tempMax == s.tempMax && r.weatherID == s.weatherIds[0]
  {
    assert PrimaryCodes([s]) == [s.weatherIds[0]];
  }
}
