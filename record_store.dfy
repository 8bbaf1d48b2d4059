/**
 * The weather records the table holds, and the array operations the
 * component applies to its lists: a positional `filter` (delete), a value
 * `filter` (un-highlight a city), a positional `map` (edit a description)
 * and `findIndex` / `indexOf` (search, and the city of a deleted row).
 */
module RecordStore {
  import opened Text

  /** The body of a successful reply of the weather service. */
  datatype Response = Response(
    description: string,
    tempInCelsius: real,
    pressureInHPa: real,
    humidityInPercent: real,
    dateAndTime: string)

  /** One row of the weather table. */
  datatype WeatherRecord = WeatherRecord(
    city: string,
    description: string,
    tempInCelsius: real,
    pressureInHPa: real,
    humidityInPercent: real,
    dateAndTime: string)

  /** `{ city, ...response.data }`: the reply with the queried city attached. */
  function MergeResponse(city: string, resp: Response): (w: WeatherRecord)
    ensures w.city == city
    ensures w.description == resp.description && w.tempInCelsius == resp.tempInCelsius
    ensures w.pressureInHPa == resp.pressureInHPa && w.humidityInPercent == resp.humidityInPercent
    ensures w.dateAndTime == resp.dateAndTime
  {
    WeatherRecord(city, resp.description, resp.tempInCelsius, resp.pressureInHPa,
                  resp.humidityInPercent, resp.dateAndTime)
  }

  /** `s.filter((_, i) => i !== index)`: drops the element at `index`, if there is one. */
  function RemoveAt<T>(s: seq<T>, index: int): (r: seq<T>)
    ensures 0 <= index < |s| ==> r == s[..index] + s[index + 1..]
    ensures !(0 <= index < |s|) ==> r == s
    decreases |s|
  {
    if s == [] then []
    else (if index == 0 then [] else [s[0]]) + RemoveAt(s[1..], index - 1)
  }

  /**
   * `s.filter(x => x !== v)`. Its contract is only a length bound; what it
   * keeps and drops is stated by the lemmas below.
   */
  function Without(s: seq<int>, v: int): (r: seq<int>)
    ensures |r| <= |s|
    ensures v in s ==> |r| < |s|
    decreases |s|
  {
    if s == [] then [] else (if s[0] == v then [] else [s[0]]) + Without(s[1..], v)
  }

  /** The value filter drops every occurrence of `v` and nothing else, counted with multiplicity. */
  lemma {:induction false} WithoutCounts(s: seq<int>, v: int)
    ensures multiset(Without(s, v)) == multiset(s)[v := 0]
    decreases |s|
  {
    if s != [] {
      WithoutCounts(s[1..], v);
      assert s == [s[0]] + s[1..];
      assert multiset(s) == multiset{s[0]} + multiset(s[1..]);
    }
  }

  /** Filtering out a value that does not occur changes nothing. */
  lemma {:induction false} WithoutAbsent(s: seq<int>, v: int)
    requires v !in s
    ensures Without(s, v) == s
    decreases |s|
  {
    if s != [] {
      WithoutAbsent(s[1..], v);
      assert s == [s[0]] + s[1..];
    }
  }

  /** What `handleDelete` relies on: exactly the elements other than `v` survive. */
  lemma WithoutRemovesAll(s: seq<int>, v: int)
    ensures multiset(Without(s, v)) == multiset(s)[v := 0]
    ensures forall x :: x in Without(s, v) <==> x in s && x != v
    ensures v !in s ==> Without(s, v) == s
  {
    WithoutCounts(s, v);
    forall x ensures x in Without(s, v) <==> x in s && x != v {
      assert x in Without(s, v) <==> x in multiset(Without(s, v));
      assert x in s <==> x in multiset(s);
    }
    if v !in s {
      WithoutAbsent(s, v);
    }
  }

  /** The filter keeps the survivors in their original order: it distributes over concatenation. */
  lemma {:induction false} WithoutAppend(a: seq<int>, b: seq<int>, v: int)
    ensures Without(a + b, v) == Without(a, v) + Without(b, v)
    decreases |a|
  {
    if a == [] {
      assert a + b == b;
    } else {
      assert (a + b)[0] == a[0] && (a + b)[1..] == a[1..] + b;
      WithoutAppend(a[1..], b, v);
    }
  }

  /**
   * `s.map((d, i) => i === index ? { ...d, description: value } : d)`:
   * only the description of the record at `index` changes.
   */
  function SetDescriptionAt(s: seq<WeatherRecord>, index: int, value: string): (r: seq<WeatherRecord>)
    ensures |r| == |s|
    ensures forall i :: 0 <= i < |s| && i != index ==> r[i] == s[i]
    ensures 0 <= index < |s| ==>
      r[index].description == value &&
      r[index].city == s[index].city &&
      r[index].tempInCelsius == s[index].tempInCelsius &&
      r[index].pressureInHPa == s[index].pressureInHPa &&
      r[index].humidityInPercent == s[index].humidityInPercent &&
      r[index].dateAndTime == s[index].dateAndTime
    decreases |s|
  {
    if s == [] then []
    else [if index == 0 then s[0].(description := value) else s[0]]
         + SetDescriptionAt(s[1..], index - 1, value)
  }

  /** Writing back the old description undoes an edit. */
  lemma RestoreDescription(s: seq<WeatherRecord>, index: int, value: string)
    requires 0 <= index < |s|
    ensures SetDescriptionAt(SetDescriptionAt(s, index, value), index, s[index].description) == s
  {
    var r := SetDescriptionAt(SetDescriptionAt(s, index, value), index, s[index].description);
    assert forall i :: 0 <= i < |s| ==> r[i] == s[i];
  }

  /** `s.findIndex(p)`: the first position whose element satisfies `p`, or -1. */
  function FindIndex<T>(s: seq<T>, p: T -> bool): (r: int)
    ensures -1 <= r < |s|
    ensures r == -1 <==> forall j :: 0 <= j < |s| ==> !p(s[j])
    ensures 0 <= r ==> p(s[r]) && forall j :: 0 <= j < r ==> !p(s[j])
    decreases |s|
  {
    if s == [] then -1
    else if p(s[0]) then 0
    else
      var k := FindIndex(s[1..], p);
      if k == -1 then -1 else k + 1
  }

  /** `cities.indexOf(city)`: the first position holding `city`, or -1. */
  function IndexOf(cities: seq<string>, city: string): (r: int)
    ensures -1 <= r < |cities|
    ensures r == -1 <==> city !in cities
    ensures 0 <= r ==> cities[r] == city && city !in cities[..r]
  {
    FindIndex(cities, c => c == city)
  }

  /** The search lookup: the first record whose city equals `query` ignoring case, or -1. */
  function FindCity(records: seq<WeatherRecord>, query: string): (r: int)
    ensures -1 <= r < |records|
    ensures r == -1 <==> forall j :: 0 <= j < |records| ==> !SameIgnoringCase(records[j].city, query)
    ensures 0 <= r ==> SameIgnoringCase(records[r].city, query) &&
                       forall j :: 0 <= j < r ==> !SameIgnoringCase(records[j].city, query)
  {
    FindIndex(records, (w: WeatherRecord) => SameIgnoringCase(w.city, query))
  }
}
