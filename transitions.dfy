/**
 * The state of the weather-table component as one value, and each of its
 * handlers as a function from the old state to the new one. The class in
 * module Controller performs the same updates field by field and is proved
 * equal to these functions; the lemmas here state what the handlers promise.
 */
module Transitions {
  import opened Wrappers
  import opened Text
  import opened RecordStore

  /** The city list the component is built with. */
  const Cities: seq<string> := ["Las Vegas", "London", "Los Angeles", "New York"]

  /** The message shown when a fetch fails. */
  const FetchErrorText: string := "Failed to fetch weather data."

  /** What the weather request produced: the reply body, or an exception of any kind. */
  datatype Outcome = Success(response: Response) | Failure

  /**
   * The component's state. `error` is the empty string when there is no
   * error; `highlightedRow` is the row matched by the last search, or None
   * (`null`); `pendingClears` counts the clear-highlight timers scheduled by
   * searches that have not fired yet.
   */
  datatype State = State(
    cities: seq<string>,
    currentCityIndex: int,
    weatherData: seq<WeatherRecord>,
    highlightedCities: seq<int>,
    loading: bool,
    error: string,
    searchCity: string,
    highlightedRow: Option<int>,
    pendingClears: nat)

  /** The state right after the first render: every `useState` initial value. */
  function Initial(cities: seq<string>): (s: State)
    ensures Inv(s)
    ensures s.cities == cities && s.currentCityIndex == 0
    ensures s.weatherData == [] && s.highlightedCities == []
    ensures !s.loading && s.error == "" && s.searchCity == ""
    ensures s.highlightedRow == None && s.pendingClears == 0
  {
    State(cities, 0, [], [], false, "", "", None, 0)
  }

  /**
   * What every reachable state satisfies: the cursor lies in [0, |cities|],
   * every highlighted city index names a city, every record's city is one
   * of the cities, and a highlighted row always has a clear timer waiting,
   * so no search highlight stays for good.
   */
  predicate Inv(s: State) {
    && 0 <= s.currentCityIndex <= |s.cities|
    && (forall h :: h in s.highlightedCities ==> 0 <= h < |s.cities|)
    && (forall i :: 0 <= i < |s.weatherData| ==> s.weatherData[i].city in s.cities)
    && (s.highlightedRow.Some? ==> s.pendingClears > 0)
  }

  /**
   * The "Get Weather" button is enabled, and `fetchWeatherData` gets past its
   * early return, exactly when this holds. In a reachable state it fails only
   * once every city has been fetched.
   */
  predicate CanFetch(s: State): (enabled: bool)
    ensures Inv(s) && !enabled ==> s.currentCityIndex == |s.cities|
    ensures s.currentCityIndex >= |s.cities| ==> !enabled
    ensures s.currentCityIndex < |s.cities| ==> enabled
  {
    s.currentCityIndex < |s.cities|
  }

  /** `fetchWeatherData`, with the outcome of the request given. */
  function Fetch(s: State, outcome: Outcome): (t: State)
    requires 0 <= s.currentCityIndex
    ensures Inv(s) ==> Inv(t)
    ensures !CanFetch(s) ==> t == s
    ensures CanFetch(s) && outcome.Success? ==>
      && |t.weatherData| == |s.weatherData| + 1
      && t.weatherData[..|s.weatherData|] == s.weatherData
      && t.weatherData[|s.weatherData|] == MergeResponse(s.cities[s.currentCityIndex], outcome.response)
      && t.highlightedCities == s.highlightedCities + [s.currentCityIndex]
      && t.currentCityIndex == s.currentCityIndex + 1
      && !t.loading && t.error == ""
      && t.cities == s.cities && t.searchCity == s.searchCity
      && t.highlightedRow == s.highlightedRow && t.pendingClears == s.pendingClears
    ensures CanFetch(s) && outcome.Failure? ==>
      t == s.(loading := false, error := FetchErrorText)
  {
    if !CanFetch(s) then s
    else
      var city := s.cities[s.currentCityIndex];
      match outcome
      case Success(resp) =>
        s.(weatherData := s.weatherData + [MergeResponse(city, resp)],
           highlightedCities := s.highlightedCities + [s.currentCityIndex],
           loading := false,
           error := "",
           currentCityIndex := s.currentCityIndex + 1)
      case Failure =>
        s.(loading := false, error := FetchErrorText)
  }

  /** `Math.max(cursor - 1, 0)`. */
  function Retreat(cursor: int): (c: int)
    ensures c >= 0
    ensures cursor >= 1 ==> c == cursor - 1
    ensures cursor <= 1 ==> c == 0
  {
    if cursor - 1 > 0 then cursor - 1 else 0
  }

  /** `handleDelete(index, cityIndex)`. */
  function Delete(s: State, index: int, cityIndex: int): (t: State)
    ensures Inv(s) ==> Inv(t)
    ensures 0 <= index < |s.weatherData| ==>
      |t.weatherData| == |s.weatherData| - 1 &&
      t.weatherData == s.weatherData[..index] + s.weatherData[index + 1..]
    ensures !(0 <= index < |s.weatherData|) ==> t.weatherData == s.weatherData
    ensures cityIndex !in t.highlightedCities
    ensures multiset(t.highlightedCities) == multiset(s.highlightedCities)[cityIndex := 0]
    ensures t.currentCityIndex == Retreat(s.currentCityIndex)
    ensures t.loading == s.loading && t.error == s.error
    ensures t.highlightedRow == s.highlightedRow && t.pendingClears == s.pendingClears
    ensures t.cities == s.cities && t.searchCity == s.searchCity
  {
    WithoutRemovesAll(s.highlightedCities, cityIndex);
    s.(weatherData := RemoveAt(s.weatherData, index),
       highlightedCities := Without(s.highlightedCities, cityIndex),
       currentCityIndex := Retreat(s.currentCityIndex))
  }

  /** `handleDescriptionChange(index, value)`. */
  function EditDescription(s: State, index: int, value: string): (t: State)
    ensures Inv(s) ==> Inv(t)
    ensures |t.weatherData| == |s.weatherData|
    ensures forall i :: 0 <= i < |s.weatherData| && i != index ==> t.weatherData[i] == s.weatherData[i]
    ensures 0 <= index < |s.weatherData| ==>
      t.weatherData[index] == s.weatherData[index].(description := value)
    ensures t == s.(weatherData := t.weatherData)
  {
    s.(weatherData := SetDescriptionAt(s.weatherData, index, value))
  }

  /** The search box's `onChange`. */
  function TypeSearch(s: State, text: string): (t: State)
    ensures t.searchCity == text
    ensures t == s.(searchCity := t.searchCity)
  {
    s.(searchCity := text)
  }

  /** `handleSearch`: on a match, highlight the first matching row and schedule its clearing. */
  function Search(s: State): (t: State)
    ensures FindCity(s.weatherData, s.searchCity) == -1 ==> t == s
    ensures FindCity(s.weatherData, s.searchCity) != -1 ==>
      && t.highlightedRow.Some?
      && 0 <= t.highlightedRow.value < |s.weatherData|
      && SameIgnoringCase(s.weatherData[t.highlightedRow.value].city, s.searchCity)
      && (forall j :: 0 <= j < t.highlightedRow.value ==>
            !SameIgnoringCase(s.weatherData[j].city, s.searchCity))
      && t == s.(highlightedRow := t.highlightedRow, pendingClears := s.pendingClears + 1)
  {
    var cityIndex := FindCity(s.weatherData, s.searchCity);
    if cityIndex != -1 then
      s.(highlightedRow := Some(cityIndex), pendingClears := s.pendingClears + 1)
    else s
  }

  /** The timer callback `setHighlightedRow(null)`: fires once per scheduled timer, whatever row is highlighted. */
  function ClearHighlight(s: State): (t: State)
    requires s.pendingClears > 0
    ensures t.highlightedRow == None
    ensures t.pendingClears == s.pendingClears - 1
    ensures t == s.(highlightedRow := None, pendingClears := t.pendingClears)
  {
    s.(highlightedRow := None, pendingClears := s.pendingClears - 1)
  }

  /** What the results table shows. */
  datatype Mode = ShowLoading | ShowError(message: string) | ShowRows(count: nat) | ShowNoData

  /** The table body: loading wins over an error, an error over the rows, the rows over "No Data". */
  function TableMode(s: State): (m: Mode)
    ensures m == ShowLoading <==> s.loading
    ensures m.ShowError? <==> !s.loading && s.error != ""
    ensures m.ShowError? ==> m.message == s.error
    ensures m.ShowRows? <==> !s.loading && s.error == "" && |s.weatherData| > 0
    ensures m.ShowRows? ==> m.count == |s.weatherData|
    ensures m == ShowNoData <==> !s.loading && s.error == "" && s.weatherData == []
  {
    if s.loading then ShowLoading
    else if s.error != "" then ShowError(s.error)
    else if |s.weatherData| > 0 then ShowRows(|s.weatherData|)
    else ShowNoData
  }

  /** After a completed fetch the table shows the error, or the rows including the new one. */
  lemma FetchIsShown(s: State, outcome: Outcome)
    requires 0 <= s.currentCityIndex && CanFetch(s)
    ensures outcome.Failure? ==> TableMode(Fetch(s, outcome)) == ShowError(FetchErrorText)
    ensures outcome.Success? ==> TableMode(Fetch(s, outcome)) == ShowRows(|s.weatherData| + 1)
  {
  }

  // ---------------------------------------------------------------------
  // Sequences of operator actions

  /** One operator action or timer callback, each completing before the next. */
  datatype Event =
    | FetchNext(outcome: Outcome)
    | DeleteRecord(index: int, cityIndex: int)
    | EditRecord(index: int, value: string)
    | TypeQuery(text: string)
    | SearchRecords
    | TimerFires

  /** One event. A timer firing when none is scheduled cannot happen; it is taken as no change. */
  function Step(s: State, e: Event): (t: State)
    requires Inv(s)
    ensures Inv(t)
  {
    match e
    case FetchNext(o) => Fetch(s, o)
    case DeleteRecord(i, c) => Delete(s, i, c)
    case EditRecord(i, v) => EditDescription(s, i, v)
    case TypeQuery(text) => TypeSearch(s, text)
    case SearchRecords => Search(s)
    case TimerFires => if s.pendingClears > 0 then ClearHighlight(s) else s
  }

  /** A run of events from `s`; the cursor stays within [0, |cities|] throughout. */
  function Run(s: State, es: seq<Event>): (t: State)
    requires Inv(s)
    ensures Inv(t)
    ensures t.cities == s.cities
    decreases |es|
  {
    if es == [] then s else Run(Step(s, es[0]), es[1..])
  }

  /** One successful fetch per reply, in order. */
  function Fetches(rs: seq<Response>): (es: seq<Event>)
    ensures |es| == |rs|
    ensures forall i :: 0 <= i < |rs| ==> es[i] == FetchNext(Success(rs[i]))
  {
    seq(|rs|, i requires 0 <= i < |rs| => FetchNext(Success(rs[i])))
  }

  /** The city indices lo, lo + 1, ..., lo + n - 1. */
  function Upto(lo: int, n: nat): (r: seq<int>)
    ensures |r| == n
    ensures forall i :: 0 <= i < n ==> r[i] == lo + i
    decreases n
  {
    if n == 0 then [] else [lo] + Upto(lo + 1, n - 1)
  }

  /** The records that successful fetches of cities[c], cities[c + 1], ... with replies `rs` append. */
  function Merged(cities: seq<string>, c: int, rs: seq<Response>): (r: seq<WeatherRecord>)
    requires 0 <= c && c + |rs| <= |cities|
    ensures |r| == |rs|
    ensures forall i :: 0 <= i < |rs| ==> r[i] == MergeResponse(cities[c + i], rs[i])
    decreases |rs|
  {
    if rs == [] then [] else [MergeResponse(cities[c], rs[0])] + Merged(cities, c + 1, rs[1..])
  }

  /** The state after fetching the replies `rs` one after another, while cities remain. */
  function FetchedAll(s: State, rs: seq<Response>): State
    requires 0 <= s.currentCityIndex && s.currentCityIndex + |rs| <= |s.cities|
  {
    if rs == [] then s
    else s.(weatherData := s.weatherData + Merged(s.cities, s.currentCityIndex, rs),
            highlightedCities := s.highlightedCities + Upto(s.currentCityIndex, |rs|),
            loading := false,
            error := "",
            currentCityIndex := s.currentCityIndex + |rs|)
  }

  /** One successful fetch followed by the rest is the closed form for all of them. */
  lemma FetchedAllStep(s: State, rs: seq<Response>)
    requires 0 <= s.currentCityIndex && rs != [] && s.currentCityIndex + |rs| <= |s.cities|
    ensures FetchedAll(s, rs) == FetchedAll(Fetch(s, Success(rs[0])), rs[1..])
  {
    var c := s.currentCityIndex;
    var x := MergeResponse(s.cities[c], rs[0]);
    var s1 := s.(weatherData := s.weatherData + [x],
                 highlightedCities := s.highlightedCities + [c],
                 loading := false, error := "", currentCityIndex := c + 1);
    assert Fetch(s, Success(rs[0])) == s1;
    if |rs| > 1 {
      AppendCons(s.weatherData, x, Merged(s.cities, c + 1, rs[1..]));
      AppendCons(s.highlightedCities, c, Upto(c + 1, |rs| - 1));
    }
  }

  lemma AppendCons<T>(a: seq<T>, x: T, b: seq<T>)
    ensures a + ([x] + b) == (a + [x]) + b
  {
  }

  /**
   * Successful fetches while cities remain: each appends the record of the
   * next city and marks that city, and the cursor advances once per fetch.
   */
  lemma {:induction false} FetchRun(s: State, rs: seq<Response>)
    requires Inv(s)
    requires s.currentCityIndex + |rs| <= |s.cities|
    ensures Run(s, Fetches(rs)) == FetchedAll(s, rs)
    decreases |rs|
  {
    if rs != [] {
      var es := Fetches(rs);
      assert es[1..] == Fetches(rs[1..]);
      var s1 := Fetch(s, Success(rs[0]));
      assert Run(s, es) == Run(s1, es[1..]);
      FetchRun(s1, rs[1..]);
      FetchedAllStep(s, rs);
    }
  }

  /** Once every city has been fetched, further fetches change nothing. */
  lemma {:induction false} FetchWhenExhausted(s: State, es: seq<Event>)
    requires Inv(s) && !CanFetch(s)
    requires forall i :: 0 <= i < |es| ==> es[i].FetchNext?
    ensures Run(s, es) == s
    decreases |es|
  {
    if es != [] {
      FetchWhenExhausted(s, es[1..]);
    }
  }

  /** The closed form of k successful fetches from the initial state, read field by field. */
  lemma FetchedAllFromStart(cities: seq<string>, rs: seq<Response>)
    requires |rs| <= |cities|
    ensures var t := FetchedAll(Initial(cities), rs);
      && t.currentCityIndex == |rs| == |t.weatherData|
      && t.highlightedCities == Upto(0, |rs|)
      && (forall i :: 0 <= i < |rs| ==> t.weatherData[i].city == cities[i])
  {
    if rs != [] {
      var t := FetchedAll(Initial(cities), rs);
      assert t.weatherData == [] + Merged(cities, 0, rs);
      assert t.highlightedCities == [] + Upto(0, |rs|);
    }
  }

  /**
   * From the initial state, k <= |cities| successful fetches and nothing else
   * leave cursor = k = number of records, exactly the cities 0..k-1 marked,
   * and record i holding city i.
   */
  lemma FetchesFromStart(cities: seq<string>, rs: seq<Response>)
    requires |rs| <= |cities|
    ensures var t := Run(Initial(cities), Fetches(rs));
      && t.currentCityIndex == |rs| == |t.weatherData|
      && t.highlightedCities == Upto(0, |rs|)
      && (forall c :: c in t.highlightedCities <==> 0 <= c < |rs|)
      && (forall i :: 0 <= i < |rs| ==> t.weatherData[i].city == cities[i])
  {
    FetchRun(Initial(cities), rs);
    FetchedAllFromStart(cities, rs);
    var u := Upto(0, |rs|);
    forall c | 0 <= c < |rs| ensures c in u {
      assert u[c] == c;
    }
  }

  /**
   * The Delete button passes `cities.indexOf(row.city)`: in a reachable state
   * that index names the deleted row's city, and the city is no longer marked.
   */
  lemma DeleteRowUnmarksCity(s: State, index: int)
    requires Inv(s)
    requires 0 <= index < |s.weatherData|
    ensures var c := IndexOf(s.cities, s.weatherData[index].city);
      && 0 <= c < |s.cities|
      && s.cities[c] == s.weatherData[index].city
      && c !in Delete(s, index, c).highlightedCities
  {
  }

  /** A query equal to a record's city in any letter case highlights that row or an earlier match. */
  lemma SearchAnyCase(s: State, j: int)
    requires 0 <= j < |s.weatherData|
    requires SameIgnoringCase(s.weatherData[j].city, s.searchCity)
    ensures Search(s).highlightedRow.Some?
    ensures Search(s).highlightedRow.value <= j
  {
  }

  /**
   * The timers are not cancelled: after two matching searches, the first
   * timer clears the second search's highlight while that search's own timer
   * is still pending.
   */
  lemma StaleTimerClearsNewerHighlight(s: State, query: string)
    requires FindCity(s.weatherData, s.searchCity) != -1
    requires FindCity(s.weatherData, query) != -1
    ensures var s2 := Search(TypeSearch(Search(s), query));
      && s2.highlightedRow == Some(FindCity(s.weatherData, query))
      && ClearHighlight(s2).highlightedRow == None
      && ClearHighlight(s2).pendingClears == s.pendingClears + 1
  {
  }

  /** The first two fetches from the initial state, both successful. */
  lemma FetchFirstTwo(cities: seq<string>, r1: Response, r2: Response)
    requires |cities| >= 2
    ensures Fetch(Fetch(Initial(cities), Success(r1)), Success(r2))
         == State(cities, 2, [MergeResponse(cities[0], r1), MergeResponse(cities[1], r2)],
                  [0, 1], false, "", "", None, 0)
  {
    var s1 := Fetch(Initial(cities), Success(r1));
    assert s1 == State(cities, 1, [MergeResponse(cities[0], r1)], [0], false, "", "", None, 0);
  }

  /** Deleting the first of two rows, whose city is city 0. */
  lemma DeleteFirstOfTwo(cities: seq<string>, a: WeatherRecord, b: WeatherRecord)
    ensures Delete(State(cities, 2, [a, b], [0, 1], false, "", "", None, 0), 0, 0)
         == State(cities, 1, [b], [1], false, "", "", None, 0)
  {
    assert [a, b][..0] + [a, b][1..] == [b];
    assert [0, 1][1..] == [1];
    assert Without([0, 1], 0) == Without([1], 0);
  }

  /** The search text "london" matches the city "London". */
  lemma LondonMatches()
    ensures SameIgnoringCase("London", "london")
  {
    var x, y := ToLower("London"), ToLower("london");
    assert forall i :: 0 <= i < 6 ==> x[i] == y[i];
  }

  /**
   * Two cities, say Las Vegas and London: fetch both, delete the first row,
   * search for the second city in any letter case (for London, "london": see
   * LondonMatches) and let the timer fire.
   */
  lemma TwoCityWalkthrough(cities: seq<string>, query: string, r1: Response, r2: Response)
    requires |cities| == 2
    requires SameIgnoringCase(cities[1], query)
    ensures var s2 := Fetch(Fetch(Initial(cities), Success(r1)), Success(r2));
      var s3 := Delete(s2, 0, 0);
      var s4 := Search(TypeSearch(s3, query));
      && s2.weatherData == [MergeResponse(cities[0], r1), MergeResponse(cities[1], r2)]
      && s2.currentCityIndex == 2 && !CanFetch(s2) && s2.highlightedCities == [0, 1]
      && s3.weatherData == [MergeResponse(cities[1], r2)]
      && s3.currentCityIndex == 1 && s3.highlightedCities == [1]
      && s4.highlightedRow == Some(0)
      && ClearHighlight(s4).highlightedRow == None
  {
    var b := MergeResponse(cities[1], r2);
    FetchFirstTwo(cities, r1, r2);
    DeleteFirstOfTwo(cities, MergeResponse(cities[0], r1), b);
    assert FindCity([b], query) == 0;
  }

  /**
   * The cursor retreats by one whichever row is deleted: after fetching the
   * first two cities and deleting the first row, the next fetch queries the
   * second city again, and the first city is not marked any more.
   */
  lemma RetreatIsCityAgnostic(cities: seq<string>, r1: Response, r2: Response, r3: Response)
    requires |cities| >= 2
    ensures var s2 := Fetch(Fetch(Initial(cities), Success(r1)), Success(r2));
      var s4 := Fetch(Delete(s2, 0, 0), Success(r3));
      && s4.currentCityIndex == 2
      && s4.weatherData == [MergeResponse(cities[1], r2), MergeResponse(cities[1], r3)]
      && s4.highlightedCities == [1, 1]
      && 0 !in s4.highlightedCities
  {
    var a, b := MergeResponse(cities[0], r1), MergeResponse(cities[1], r2);
    FetchFirstTwo(cities, r1, r2);
    DeleteFirstOfTwo(cities, a, b);
    RefetchSecond(cities, b, r3);
  }

  /** With the cursor back on city 1 after a deletion, the next fetch queries city 1 again. */
  lemma RefetchSecond(cities: seq<string>, b: WeatherRecord, r3: Response)
    requires |cities| >= 2
    ensures Fetch(State(cities, 1, [b], [1], false, "", "", None, 0), Success(r3))
         == State(cities, 2, [b, MergeResponse(cities[1], r3)], [1, 1], false, "", "", None, 0)
  {
  }

  /**
   * The component's own four cities: fetch two, delete the first row and
   * search "london". The button stays enabled throughout, since two cities
   * remain.
   */
  lemma FourCityWalkthrough(r1: Response, r2: Response)
    ensures var s2 := Fetch(Fetch(Initial(Cities), Success(r1)), Success(r2));
      var s3 := Delete(s2, 0, 0);
      var s4 := Search(TypeSearch(s3, "london"));
      && s2.weatherData == [MergeResponse("Las Vegas", r1), MergeResponse("London", r2)]
      && s2.currentCityIndex == 2 && CanFetch(s2) && s2.highlightedCities == [0, 1]
      && s3.weatherData == [MergeResponse("London", r2)]
      && s3.currentCityIndex == 1 && CanFetch(s3) && s3.highlightedCities == [1]
      && s4.highlightedRow == Some(0)
      && ClearHighlight(s4).highlightedRow == None
  {
    FetchFirstTwo(Cities, r1, r2);
    DeleteFirstOfTwo(Cities, MergeResponse("Las Vegas", r1), MergeResponse("London", r2));
    LondonMatches();
    assert FindCity([MergeResponse("London", r2)], "london") == 0;
  }
}
