/**
 The colour-and-image scheme table that both targets build from the decoded
 `WeatherSchemeColor` configuration: what `getDefaultWeatherSchemeColor`'s
 table means, stated once for any weather-type enumeration `T`.
 */
module SchemeTable {

  /** `WeatherSchemeDTO`: one decoded configuration entry. (The Swift field
      `type` is called `weatherType` here, `type` being a Dafny keyword; the
      spelling `backgound` is the program's own.) */
  datatype WeatherSchemeDTO<T> = WeatherSchemeDTO(
    weatherType: T,
    primaryColor: string,
    secondaryColor: string,
    imageAuto: string,
    imageDay: string,
    imageNight: string,
    backgound: string)

  /** `WeatherSchemeInfo`: an entry without its type, as stored in the table. */
  datatype WeatherSchemeInfo = WeatherSchemeInfo(
    primaryColor: string,
    secondaryColor: string,
    imageAuto: string,
    imageDay: string,
    imageNight: string,
    backgound: string)

  /** The info an entry contributes: all its fields but the type. */
  function InfoOf<T>(dto: WeatherSchemeDTO<T>): WeatherSchemeInfo
  {
    WeatherSchemeInfo(dto.primaryColor, dto.secondaryColor, dto.imageAuto, dto.imageDay, dto.imageNight, dto.backgound)
  }

  /** No later entry of `dtos` has the type of entry `i`. */
  ghost predicate LastOfType<T>(dtos: seq<WeatherSchemeDTO<T>>, i: int)
    requires 0 <= i < |dtos|
  {
    forall j :: i < j < |dtos| ==> dtos[j].weatherType != dtos[i].weatherType
  }

  /** Every type in `table` is listed in `dtos`. */
  ghost predicate OnlyListedTypes<T>(dtos: seq<WeatherSchemeDTO<T>>, table: map<T, WeatherSchemeInfo>)
  {
    forall t :: t in table ==> exists i :: 0 <= i < |dtos| && dtos[i].weatherType == t
  }

  /** Every type listed in `dtos` is in `table`. */
  ghost predicate AllListedTypes<T>(dtos: seq<WeatherSchemeDTO<T>>, table: map<T, WeatherSchemeInfo>)
  {
    forall i :: 0 <= i < |dtos| ==> dtos[i].weatherType in table
  }

  /** `table` holds exactly the types listed in `dtos`, each with the info of
      its last entry. */
  ghost predicate IsSchemeTable<T>(dtos: seq<WeatherSchemeDTO<T>>, table: map<T, WeatherSchemeInfo>)
  {
    && OnlyListedTypes(dtos, table)
    && AllListedTypes(dtos, table)
    && LastInfoStored(dtos, table)
  }

  /** Each listed type's last entry is what `table` holds for that type. */
  ghost predicate LastInfoStored<T>(dtos: seq<WeatherSchemeDTO<T>>, table: map<T, WeatherSchemeInfo>)
    requires AllListedTypes(dtos, table)
  {
    forall i :: 0 <= i < |dtos| && LastOfType(dtos, i) ==> table[dtos[i].weatherType] == InfoOf(dtos[i])
  }

  /** Storing entry `k` over the table of the first `k` entries gives the table
      of the first `k + 1` entries: a later entry overrides an earlier one. */
  lemma SchemeTableOneMore<T>(dtos: seq<WeatherSchemeDTO<T>>, k: int, table: map<T, WeatherSchemeInfo>)
    requires 0 <= k < |dtos|
    requires IsSchemeTable(dtos[..k], table)
    ensures IsSchemeTable(dtos[..k + 1], table[dtos[k].weatherType := InfoOf(dtos[k])])
  {
    var before := dtos[..k];
    assert dtos[..k + 1] == before + [dtos[k]];
    OnlyListedOneMore(before, dtos[k], table);
    AllListedOneMore(before, dtos[k], table);
    LastInfoOneMore(before, dtos[k], table);
  }

  lemma OnlyListedOneMore<T>(before: seq<WeatherSchemeDTO<T>>, dto: WeatherSchemeDTO<T>, table: map<T, WeatherSchemeInfo>)
    requires OnlyListedTypes(before, table)
    ensures OnlyListedTypes(before + [dto], table[dto.weatherType := InfoOf(dto)])
  {
    var after, table' := before + [dto], table[dto.weatherType := InfoOf(dto)];
    forall u | u in table'
      ensures exists i :: 0 <= i < |after| && after[i].weatherType == u
    {
      if u == dto.weatherType {
        assert after[|before|].weatherType == u;
      } else {
        var i :| 0 <= i < |before| && before[i].weatherType == u;
        assert after[i] == before[i];
      }
    }
  }

  lemma LastInfoOneMore<T>(before: seq<WeatherSchemeDTO<T>>, dto: WeatherSchemeDTO<T>, table: map<T, WeatherSchemeInfo>)
    requires AllListedTypes(before, table) && LastInfoStored(before, table)
    ensures AllListedTypes(before + [dto], table[dto.weatherType := InfoOf(dto)])
    ensures LastInfoStored(before + [dto], table[dto.weatherType := InfoOf(dto)])
  {
    var after, table' := before + [dto], table[dto.weatherType := InfoOf(dto)];
    AllListedOneMore(before, dto, table);
    forall i | 0 <= i < |after| && LastOfType(after, i)
      ensures table'[after[i].weatherType] == InfoOf(after[i])
    {
      if i < |before| {
        assert after[|before|].weatherType != after[i].weatherType;
        assert LastOfType(before, i) by {
          forall j | i < j < |before| ensures before[j].weatherType != before[i].weatherType {
            assert before[j] == after[j] && before[i] == after[i];
          }
        }
      }
    }
  }

  lemma AllListedOneMore<T>(before: seq<WeatherSchemeDTO<T>>, dto: WeatherSchemeDTO<T>, table: map<T, WeatherSchemeInfo>)
    requires AllListedTypes(before, table)
    ensures AllListedTypes(before + [dto], table[dto.weatherType := InfoOf(dto)])
  {
    var after := before + [dto];
    forall i | 0 <= i < |after| ensures after[i].weatherType in table[dto.weatherType := InfoOf(dto)] {
      if i < |before| {
        assert after[i] == before[i];
      }
    }
  }

  /** Every listed type has a last entry. */
  lemma {:induction false} LastEntryExists<T>(dtos: seq<WeatherSchemeDTO<T>>, i: int)
    requires 0 <= i < |dtos|
    ensures exists l :: i <= l < |dtos| && dtos[l].weatherType == dtos[i].weatherType && LastOfType(dtos, l)
    decreases |dtos| - i
  {
    if !LastOfType(dtos, i) {
      var j :| i < j < |dtos| && dtos[j].weatherType == dtos[i].weatherType;
      LastEntryExists(dtos, j);
    }
  }

  /** The table is determined by the entries: two tables built from the same
      entries are equal. */
  lemma SchemeTableUnique<T>(dtos: seq<WeatherSchemeDTO<T>>, t1: map<T, WeatherSchemeInfo>, t2: map<T, WeatherSchemeInfo>)
    requires IsSchemeTable(dtos, t1) && IsSchemeTable(dtos, t2)
    ensures t1 == t2
  {
    forall u | u in t1 ensures u in t2 && t1[u] == t2[u] {
      var i :| 0 <= i < |dtos| && dtos[i].weatherType == u;
      LastEntryExists(dtos, i);
    }
    forall u | u in t2 ensures u in t1 {
      var i :| 0 <= i < |dtos| && dtos[i].weatherType == u;
    }
  }
}
