/**
 * The `Main` component as an object: one field per piece of React state,
 * one method per handler. Each method performs the handler's setter calls in
 * order and is proved to end in the state the matching function of module
 * Transitions describes.
 */
module Controller {
  import opened Wrappers
  import opened RecordStore
  import opened Transitions

  class WeatherController {
    const cities: seq<string>
    var currentCityIndex: int
    var weatherData: seq<WeatherRecord>
    var highlightedCities: seq<int>
    var loading: bool
    var error: string
    var searchCity: string
    var highlightedRow: Option<int>
    /** Clear-highlight timers scheduled and not yet fired. */
    var pendingClears: nat

    /** The fields as one value. */
    function Snapshot(): State
      reads this
    {
      State(cities, currentCityIndex, weatherData, highlightedCities, loading, error,
            searchCity, highlightedRow, pendingClears)
    }

    ghost predicate Valid()
      reads this
    {
      Inv(Snapshot())
    }

    /** The first render: the fixed city list and every `useState` initial value. */
    constructor ()
      ensures Valid()
      ensures Snapshot() == Initial(Cities)
    {
      cities := Cities;
      currentCityIndex := 0;
      weatherData := [];
      highlightedCities := [];
      loading := false;
      error := "";
      searchCity := "";
      highlightedRow := None;
      pendingClears := 0;
    }

    /** `disabled={currentCityIndex >= cities.length}` on the "Get Weather" button, negated. */
    function FetchEnabled(): (enabled: bool)
      reads this
      ensures enabled <==> CanFetch(Snapshot())
    {
      currentCityIndex < |cities|
    }

    /** `fetchWeatherData`, given what the request produced. */
    method FetchWeatherData(outcome: Outcome)
      requires Valid()
      modifies this
      ensures Valid()
      ensures Snapshot() == Fetch(old(Snapshot()), outcome)
    {
      if currentCityIndex >= |cities| {
        return;
      }
      loading := true;
      error := "";
      var city := cities[currentCityIndex];
      match outcome
      case Success(resp) =>
        weatherData := weatherData + [MergeResponse(city, resp)];
        highlightedCities := highlightedCities + [currentCityIndex];
        loading := false;
        currentCityIndex := currentCityIndex + 1;
      case Failure =>
        loading := false;
        error := FetchErrorText;
    }

    /** `handleDelete(index, cityIndex)`. */
    method HandleDelete(index: int, cityIndex: int)
      requires Valid()
      modifies this
      ensures Valid()
      ensures Snapshot() == Delete(old(Snapshot()), index, cityIndex)
    {
      WithoutRemovesAll(highlightedCities, cityIndex);
      weatherData := RemoveAt(weatherData, index);
      highlightedCities := Without(highlightedCities, cityIndex);
      currentCityIndex := Retreat(currentCityIndex);
    }

    /** The Delete button of row `index`: `handleDelete(index, cities.indexOf(data.city))`. */
    method DeleteRow(index: int)
      requires Valid()
      requires 0 <= index < |weatherData|
      modifies this
      ensures Valid()
      ensures Snapshot() == Delete(old(Snapshot()), index, IndexOf(cities, old(weatherData[index].city)))
      ensures old(weatherData[index].city) in cities
      ensures IndexOf(cities, old(weatherData[index].city)) !in highlightedCities
    {
      var cityIndex := IndexOf(cities, weatherData[index].city);
      HandleDelete(index, cityIndex);
    }

    /** `handleDescriptionChange(index, value)`. */
    method HandleDescriptionChange(index: int, value: string)
      requires Valid()
      modifies this
      ensures Valid()
      ensures Snapshot() == EditDescription(old(Snapshot()), index, value)
    {
      weatherData := SetDescriptionAt(weatherData, index, value);
    }

    /** The search box's `onChange`: `setSearchCity(text)`. */
    method SetSearchCity(text: string)
      requires Valid()
      modifies this
      ensures Valid()
      ensures Snapshot() == TypeSearch(old(Snapshot()), text)
    {
      searchCity := text;
    }

    /** `handleSearch`: highlight the first matching row and schedule one clearing timer. */
    method HandleSearch()
      requires Valid()
      modifies this
      ensures Valid()
      ensures Snapshot() == Search(old(Snapshot()))
    {
      var cityIndex := FindCity(weatherData, searchCity);
      if cityIndex != -1 {
        highlightedRow := Some(cityIndex);
        pendingClears := pendingClears + 1;
      }
    }

    /** A scheduled timer fires: `setHighlightedRow(null)`, whichever row is highlighted now. */
    method TimerFires()
      requires Valid()
      requires pendingClears > 0
      modifies this
      ensures Valid()
      ensures Snapshot() == ClearHighlight(old(Snapshot()))
    {
      highlightedRow := None;
      pendingClears := pendingClears - 1;
    }
  }
}
