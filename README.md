# Weather table controller

A Dafny model of the `Main` component of the weather app
(`src/components/Main/Main.jsx`). The component steps through a fixed list of
four cities. Each press of "Get Weather" fetches a snapshot for the city under
the cursor and appends it to a table. The operator can edit a row's
description and delete rows. Deleting a row moves the cursor back by one. A
search box highlights the first row whose city matches, ignoring case, and a
timer later removes that highlight.

Layout:

- `wrappers.dfy` (`Wrappers`): the `Option` used for the highlighted row (`null` or an index).
- `text.dfy` (`Text`): ASCII lower-casing and case-insensitive comparison.
- `record_store.dfy` (`RecordStore`): the record and reply types. Also the array operations the
  handlers use: a positional `filter`, a value `filter`, a positional `map`, `findIndex` and
  `indexOf`. `RemoveAt`, `SetDescriptionAt` and `FindIndex` are recursive functions whose
  contracts state the result. `IndexOf` and `FindCity` are instances of `FindIndex` and inherit
  its contract. `Without` carries only a length bound; what it keeps and drops is proved in the
  `Without*` lemmas.
- `transitions.dfy` (`Transitions`): the whole component state as one `State` value. Each handler
  is a function from the old state to the new one. `Inv` is the invariant of reachable states;
  the cursor stays in `[0, |cities|]`, and a highlighted row always has a clear timer pending.
  `Run` folds a sequence of events. The lemmas relate several
  steps.
- `controller.dfy` (`Controller`): class `WeatherController` has one field per `useState` and one
  method per handler. Each method calls the setters in the handler's order. Its postcondition
  says the new `Snapshot()` equals the matching `Transitions` function applied to the old one, and
  that the invariant still holds.

The request to the weather service is not modelled. Its result is a parameter: `Success(reply)`
or `Failure`. The 3000 ms timer is an explicit `TimerFires` event. The `pendingClears` field counts
timers that a matching search scheduled and that have not fired yet. Each firing clears
`highlightedRow`, whatever it holds at that moment, because timers are never cancelled.

Three behaviours of the code that the model keeps:

- The queried-city marks are a list (`highlightedCities`), not a set. A city can be marked twice.
  This happens after a deletion moves the cursor back over a city that is already marked
  (`RetreatIsCityAgnostic`). A later deletion of that city then removes every copy
  (`WithoutRemovesAll`).
- Deleting at an index outside the table leaves the records unchanged. The cursor still moves back
  and the city index is still unmarked.
- `loading` and `error` are two separate fields. The table shows "Loading..." whenever `loading`
  is set, even if `error` is non-empty.

The model accepts deleting and editing a row in more states than the interface offers them. The
Delete buttons and description inputs exist only while the table shows rows, that is, when
neither `loading` nor `error` is set (src/components/Main/Main.jsx:115-147). `Step` accepts
`DeleteRecord` and `EditRecord` in every state, so after a failed fetch the model can still edit
or delete rows. The invariant lemmas cover this larger set of states, so they also hold for the
states the interface reaches.

## Model

| member | source | states |
|---|---|---|
| `Text.ToLower` | src/components/Main/Main.jsx:55 | lower-casing keeps the length and lower-cases each character on its own; no upper-case ASCII letter is left |
| `Text.SameIgnoringCase` | src/components/Main/Main.jsx:55 | `a.toLowerCase() === b.toLowerCase()` holds exactly when the strings have the same length and agree character by character after lower-casing; equal strings always match |
| `Text.ToLowerIdempotent` | src/components/Main/Main.jsx:55 | lower-casing twice equals lower-casing once, so a lower-cased query matches the name it came from |
| `RecordStore.MergeResponse` | src/components/Main/Main.jsx:33 | `{ city, ...response.data }`: the new record carries the queried city and copies the reply's description, temperature, pressure, humidity and timestamp |
| `RecordStore.Without` | src/components/Main/Main.jsx:45 | the value filter never lengthens the list and shortens it whenever `v` occurs; what it keeps is stated by the `Without*` lemmas |
| `RecordStore.RemoveAt` | src/components/Main/Main.jsx:44 | the positional filter removes exactly the element at `index` and keeps the rest in order; an out-of-range index changes nothing |
| `RecordStore.WithoutCounts` | src/components/Main/Main.jsx:45 | the value filter keeps every element other than `v` with its multiplicity and drops every copy of `v` |
| `RecordStore.WithoutAbsent` | src/components/Main/Main.jsx:45 | filtering out a value that does not occur returns the list unchanged |
| `RecordStore.WithoutRemovesAll` | src/components/Main/Main.jsx:45 | after the filter, a value is present exactly when it was present before and differs from `v`; the multiset and no-op facts above, together |
| `RecordStore.WithoutAppend` | src/components/Main/Main.jsx:45 | the value filter distributes over concatenation, so survivors keep their relative order |
| `RecordStore.SetDescriptionAt` | src/components/Main/Main.jsx:50 | the positional map keeps the length; the record at `index` gets the new description and keeps all its other fields; every other record is identical |
| `RecordStore.RestoreDescription` | src/components/Main/Main.jsx:49-51 | writing back the previous description undoes an edit |
| `RecordStore.FindIndex` | src/components/Main/Main.jsx:55 | returns -1 exactly when no element satisfies the predicate; otherwise the first position that does |
| `RecordStore.IndexOf` | src/components/Main/Main.jsx:144 | returns -1 exactly when the city is absent; otherwise the first position holding it |
| `RecordStore.FindCity` | src/components/Main/Main.jsx:55 | returns -1 exactly when no record's city equals the query ignoring case; otherwise the first matching row |
| `Transitions.Initial` | src/components/Main/Main.jsx:7-13 | every `useState` initial value: cursor 0, no records, no marks, not loading, no error, empty search text, no highlighted row, no pending timer; the invariant holds |
| `Transitions.CanFetch` | src/components/Main/Main.jsx:25 | false when the cursor is at or past the end of the city list (the early return at :25, `disabled` at :71), true before it; in a state satisfying `Inv` it is false only when the cursor equals the number of cities |
| `Transitions.Fetch` | src/components/Main/Main.jsx:24-41 | no change at all when the cursor is at the end. Success appends one record for `cities[cursor]` after the unchanged old records, appends the old cursor to the marks, advances the cursor by 1 and clears `loading` and `error`. Failure changes only `loading` (false) and `error` (the fixed message). The invariant is kept |
| `Transitions.Retreat` | src/components/Main/Main.jsx:46 | `max(cursor - 1, 0)`: never negative, one less above 1, else 0 |
| `Transitions.Delete` | src/components/Main/Main.jsx:43-47 | an in-range index removes exactly that record (length minus 1, order kept); otherwise the records are unchanged. Every copy of `cityIndex` is unmarked and nothing else is. The cursor retreats, floored at 0. `loading`, `error` and the highlight are untouched. The invariant is kept |
| `Transitions.EditDescription` | src/components/Main/Main.jsx:49-51 | only the description of the record at `index` changes; the length and every other field, record and state component stay the same |
| `Transitions.TypeSearch` | src/components/Main/Main.jsx:98 | only the search text changes |
| `Transitions.Search` | src/components/Main/Main.jsx:54-64 | on a match, highlights the first row whose city equals the query ignoring case and schedules one clear; with no match the state is unchanged |
| `Transitions.ClearHighlight` | src/components/Main/Main.jsx:61-63 | a firing timer sets the highlight to none, whatever it held, and changes nothing else |
| `Transitions.TableMode` | src/components/Main/Main.jsx:115-154 | loading wins over an error, an error over rows, rows over "No Data"; the error mode carries the message and the rows mode the record count |
| `Transitions.FetchIsShown` | src/components/Main/Main.jsx:37-40 | after a failed fetch the table shows the fixed error message; after a successful one it shows the rows, one more than before |
| `Transitions.Step` | src/components/Main/Main.jsx:24-63 | every handler and the timer keep the invariant (the cursor lies between 0 and the number of cities, marks name cities, records' cities are cities, a highlighted row always has a clear timer pending) |
| `Transitions.Run` | src/components/Main/Main.jsx:25-46 | any sequence of events keeps the invariant and the city list |
| `Transitions.FetchedAllStep` | src/components/Main/Main.jsx:33-36 | one successful fetch followed by the closed form of the rest is the closed form of them all |
| `Transitions.FetchRun` | src/components/Main/Main.jsx:33-36 | k successful fetches while cities remain append the records of the next k cities in order, mark exactly those indices, advance the cursor by k and clear `loading`/`error` |
| `Transitions.FetchWhenExhausted` | src/components/Main/Main.jsx:25 | once the cursor is at the end, any number of fetches leaves the state unchanged |
| `Transitions.FetchesFromStart` | src/components/Main/Main.jsx:7-9 | from the initial state, at most as many successful fetches as there are cities, k of them, give cursor = k = record count, marks exactly `[0, ..., k-1]`, and record i holds city i |
| `Transitions.DeleteRowUnmarksCity` | src/components/Main/Main.jsx:144 | in a reachable state, `cities.indexOf(row.city)` names the deleted row's city, and that index is unmarked afterwards |
| `Transitions.SearchAnyCase` | src/components/Main/Main.jsx:55-58 | a query equal to some row's city in any letter case highlights that row or an earlier match |
| `Transitions.StaleTimerClearsNewerHighlight` | src/components/Main/Main.jsx:58-63 | after two matching searches, the first timer removes the second highlight while the second timer is still pending |
| `Transitions.LondonMatches` | src/components/Main/Main.jsx:55 | the search text "london" matches the city "London" |
| `Transitions.TwoCityWalkthrough` | src/components/Main/Main.jsx:24-63 | for a hypothetical two-city list (for example Las Vegas and London; the component's own list has four): both fetched, fetch disabled, marks `[0, 1]`; deleting row 0 leaves the second city's record, cursor 1, marks `[1]`; searching the second city in any letter case highlights row 0, and the timer clears it |
| `Transitions.FourCityWalkthrough` | src/components/Main/Main.jsx:6-63 | the component's own four cities: two fetches give the Las Vegas and London records, cursor 2 and marks `[0, 1]` with fetch still enabled; deleting row 0 leaves London, cursor 1, marks `[1]`; searching "london" highlights row 0, and the timer clears it |
| `Transitions.RetreatIsCityAgnostic` | src/components/Main/Main.jsx:36 | fetch, fetch, delete row 0, fetch: the second city is fetched twice, the marks are `[1, 1]`, and the first city is left unmarked |
| `Controller.WeatherController.constructor` | src/components/Main/Main.jsx:6-13 | the fixed city list and every initial value; the invariant holds |
| `Controller.WeatherController.FetchEnabled` | src/components/Main/Main.jsx:71 | the "Get Weather" button is enabled exactly when the cursor is before the end |
| `Controller.WeatherController.FetchWeatherData` | src/components/Main/Main.jsx:24-41 | the setter sequence ends in `Fetch(old state, outcome)` and keeps the invariant |
| `Controller.WeatherController.HandleDelete` | src/components/Main/Main.jsx:43-47 | ends in `Delete(old state, index, cityIndex)` and keeps the invariant |
| `Controller.WeatherController.DeleteRow` | src/components/Main/Main.jsx:144 | deletes with the row city's index in the city list; that city is in the list and is no longer marked |
| `Controller.WeatherController.HandleDescriptionChange` | src/components/Main/Main.jsx:49-51 | ends in `EditDescription(old state, index, value)` |
| `Controller.WeatherController.SetSearchCity` | src/components/Main/Main.jsx:98 | ends in `TypeSearch(old state, text)` |
| `Controller.WeatherController.HandleSearch` | src/components/Main/Main.jsx:54-65 | ends in `Search(old state)` |
| `Controller.WeatherController.TimerFires` | src/components/Main/Main.jsx:61-63 | ends in `ClearHighlight(old state)`; it can fire only when a timer is pending |

## Left out

- `calculateDataAge` (src/components/Main/Main.jsx:16-22): it reads the wall clock, divides floating-point numbers and formats with `toFixed`.
- The HTTP request and its URL (src/components/Main/Main.jsx:31): only its outcome is modelled, as a parameter.
- The reply's shape: a reply is the five fields the table reads (src/components/Main/Main.jsx:135-142). In the source, a reply that also has a `city` key would overwrite the queried city, because the spread comes after `city`. The model does not capture this.
- Overlapping fetches: the button stays enabled while `loading` is true. A fetch is modelled as one step that completes before the next event. So the brief `loading = true` state, and the stale cursor a late reply would use, are not reached by `Run`. `TableMode` is still defined for every state.
- The 3000 ms delay: the timer is an event that may fire at any later point. "No earlier than 3000 ms" is not expressed.
- `Text.ToLower`: lower-cases ASCII letters only, not the full Unicode `toLowerCase`.
- Numbers in the reply are `real`, and the date is a string copied unchanged. JavaScript's floating-point values are not modelled.
- JSX rendering and CSS (src/components/Main/Main.jsx:67-160). This includes the green border on marked cities and the yellow background on the highlighted row. Only the selection of the table body (`TableMode`) is kept.
