# WeatherApp core in Dafny

A model of the browser-side logic of `weatherApp.js`. The page reads a
location and an AQI yes/no choice from a form. It asks a weather API for
current conditions. It then renders the answer as HTML tables in three
output containers.

The model covers the parts that are plain logic once the DOM is abstracted:

- **Submit handler** (`Form`). The location is trimmed with JavaScript's
  `trim`. `Text` models that with the exact ECMAScript WhiteSpace and
  LineTerminator set. An empty result gives the alert
  "Please enter a valid location." and no request. Any other result gives a
  request with the trimmed name and the raw AQI choice.
- **Transformer** (`WeatherData`). `processData` copies the location and
  current-condition fields and adds `rain_prob`. It attaches the air-quality
  object only when the choice is exactly `"yes"` and the response has one.
  The rainfall heuristic is four strict comparisons.
- **Table renderer** (`Tables`). `createTable` gives a heading row, then a
  value row, or one spanning "Data not available" cell when there is no data.
  Each value cell follows a fallback chain:
  - the mapped property, when the data has it and it is not null;
  - the placeholder, when that property is null;
  - the positional entry of `values`, when the data lacks the property;
  - the placeholder, when that entry is missing or null.

  A cell's text is modelled as the sequence of assignments to it. This shows
  that the early `cell.textContent = values` write for the
  "Rainfall Probability" heading is always overwritten.
- **Render** (`Render`). `displayWeatherInfo` is a pure function on the
  three containers. It clears all three. It puts the weather table alone in
  the weather-table container. When AQI data is shown, it puts the AQI table
  in the *weather-info* container, not in the AQI-table container, which stays
  empty.
- **JavaScript values** (`JsValues`). Objects are ordered lists of own
  properties, because `Object.values` order decides the positional fallback.
  Property names are ordinary strings in insertion order (no array-index
  names). Under that reading, `{ locationInfo: null, ...aqiInfo }` puts
  `locationInfo` first, and `aqiInfo` may overwrite its null.

`Option.None` is JavaScript's `undefined`: a missing property, or an index
past the end of an array. `Value.Null` is `null`. Numbers are `real`.

## Model

| member | source | states |
|---|---|---|
| `Form.Submit` | weatherApp.js:12-23 | An alert happens exactly when the location is empty or all whitespace, and it carries the fixed message. Otherwise a request goes out with the trimmed, non-empty name and the unchanged AQI choice. |
| `Form.ResubmitRequestsSameCity` | weatherApp.js:15-19 | Submitting the requested name again asks for the same city, because the name has no surrounding whitespace left. |
| `Form.SubmitIgnoresPadding` | weatherApp.js:15-19 | Whitespace added around the location never changes what a submission does. |
| `Text.TrimStart` | weatherApp.js:15 | The result is a suffix of the input, everything dropped is whitespace, and the result does not start with whitespace. |
| `Text.TrimEnd` | weatherApp.js:15 | The result is a prefix of the input, everything dropped is whitespace, and the result does not end with whitespace. |
| `Text.Trim` | weatherApp.js:15 | The result is a slice with only whitespace outside it and none at its ends. It is empty exactly when the input is all whitespace. |
| `Text.TrimEndOfTrimStart` | weatherApp.js:15 | Stripping the front and then the back gives such a slice, and it is empty exactly for all-whitespace input. |
| `Text.TrimIsUnique` | weatherApp.js:15 | Any slice that meets the trim characterisation equals `Trim`'s result, so the characterisation fixes the trim. |
| `Text.TrimIdempotent` | weatherApp.js:15 | Trimming twice gives the same result as trimming once. |
| `Text.TrimIgnoresPadding` | weatherApp.js:15 | Adding whitespace on either side does not change the trim. |
| `WeatherData.RainfallProbability` | weatherApp.js:79-91 | The result is always "High" or "Low". It is "High" exactly when humidity > 70, temperature < 20, wind < 15 and cloud > 50, all strict. |
| `WeatherData.ThresholdsGiveLow` | weatherApp.js:85-90 | Any input sitting exactly on its threshold gives "Low". |
| `WeatherData.RainfallMonotone` | weatherApp.js:85-90 | A "High" stays "High" when conditions get more humid, colder, calmer and cloudier. |
| `WeatherData.RainfallExamples` | weatherApp.js:85-90 | 15 C, 80%, 5 kph, 60% gives "High"; the same at 25 C gives "Low". |
| `WeatherData.ProcessData` | weatherApp.js:42-77 | `Info` copies name, region, country, lat, lon, localtime, temp_c, humidity, wind_kph and cloud unchanged. `rain_prob` is "High" or "Low", per the rainfall rule. `aqiInfo` is present exactly when the choice is "yes" and the response has air quality, and it is that object unmodified. |
| `WeatherData.ProcessDataInfoIgnoresAqi` | weatherApp.js:55-67 | The AQI choice does not affect `Info`. |
| `WeatherData.NoAqiUnlessRequested` | weatherApp.js:69-72 | A choice other than "yes" never yields AQI data, whatever the response holds. |
| `WeatherData.InfoObject` | weatherApp.js:55-67 | The `Info` object has the eleven properties in construction order. Each holds its field's value, none is null, and no name repeats. |
| `JsValues.Lookup` | weatherApp.js:182-183 | A property read finds nothing exactly when no entry has that name. When it finds a value, an entry with that name holds it. |
| `JsValues.LookupEntry` | weatherApp.js:182-183 | In an object with distinct names, reading a property returns the value stored under it. |
| `JsValues.Get` | weatherApp.js:182 | `key in data` holds exactly when the object has an own property of that name, which is exactly when reading it gives a value. |
| `JsValues.Values` | weatherApp.js:126 | `Object.values` lists the property values in insertion order, one per property. |
| `JsValues.Without` | weatherApp.js:129 | The result is the entries without the given name, in their original order: a subsequence with no entry of that name, one shorter for each entry that had it. Every other name reads as before, and names stay distinct. |
| `JsValues.WithLocationInfo` | weatherApp.js:129 | The spread object puts `locationInfo` first. Its names are those of `aqiInfo` plus `locationInfo`. It reads as `aqiInfo` on every other name, and `locationInfo` is null unless `aqiInfo` supplies it. |
| `Tables.ValueCell` | weatherApp.js:175-194 | Cell text is the last write, and it follows the fallback chain: mapped property if present and non-null, placeholder if null, else the positional value if present and non-null, else the placeholder. The column span is 1. |
| `Tables.ValueCellWrites` | weatherApp.js:178-194 | A value cell gets two writes under the "Rainfall Probability" heading and one under any other. Every write before the last is the whole `values` array. |
| `Tables.RainfallWriteOverwritten` | weatherApp.js:178-194 | With the program's heading map, the "Rainfall Probability" cell is written first with the `values` array and then with the fallback-chain value, and it shows the second. That is `rain_prob` when the data has it non-null. The cell never shows an array unless the chain picks one. |
| `Tables.HeadingRow` | weatherApp.js:165-170 | One cell per heading, in order, holding that heading. |
| `Tables.ValueRowPrefix` | weatherApp.js:173-195 | The value row has one cell per heading, and cell i is the fallback-chain cell for heading i and column i. |
| `Tables.CreateTable` | weatherApp.js:138-203 | Two rows. The first row is exactly the headings. With no data, the second row is one "Data not available" cell spanning all headings. With data, the second row has one fallback-chain cell per heading. |
| `Tables.CellIsLocal` | weatherApp.js:175-194 | A value cell depends only on its own heading and column, not on the other headings. |
| `Render.ClearAll` | weatherApp.js:94-96 | All three containers are empty after clearing. |
| `Render.WeatherTable` | weatherApp.js:99-111 | A plain (not block) table. Its heading row is the eleven weather headings. Value cell i is the fallback-chain cell over the `Info` object, with no positional values. |
| `Render.AqiTable` | weatherApp.js:116-133 | A block-displayed table. Its heading row is the eight AQI headings. Value cell i is the fallback-chain cell over `{ locationInfo: null, ...aqiInfo }`, with `Object.values(aqiInfo)` as the positional values. |
| `Render.DisplayWeatherInfo` | weatherApp.js:93-136 | The weather table is the only child of the weather-table container, and the AQI-table container is empty. The weather-info container holds exactly the AQI table when the choice is "yes" and AQI data is present, and is empty otherwise. |
| `Render.DisplayForgetsPriorContent` | weatherApp.js:94-96 | The rendered state does not depend on what the containers held before. |
| `Render.DisplayIdempotent` | weatherApp.js:93-136 | Rendering the same result twice gives the same state as rendering it once. |
| `Render.WeatherHeadingsMapToInfoKeys` | weatherApp.js:99-111 | Each weather heading maps to the `Info` property in the same column. |
| `Render.WeatherTableShowsInfo` | weatherApp.js:99-112 | Each weather-table value cell shows the matching `Info` field, never the placeholder. The "Rainfall Probability" column shows `rain_prob`. |
| `Render.RenderedRainfallMatchesHeuristic` | weatherApp.js:35-37 | After a successful response is processed and rendered, the weather table's "Rainfall Probability" cell reads "High" exactly when the current conditions meet the heuristic, and "Low" otherwise. |
| `Render.AqiHeadingsMapToAqiKeys` | weatherApp.js:116-125 | Each AQI heading maps to the pollutant property in the same column, and none maps to `locationInfo`. |
| `Render.AqiColumnShowsPollutant` | weatherApp.js:126-132 | A column whose pollutant is in the air-quality object shows its value, or the placeholder if it is null. |
| `Render.AqiTableShowsPollutants` | weatherApp.js:114-134 | When all eight pollutants are present, the AQI value row lists them in heading order. |
| `Render.AqiMissingPollutantUsesPosition` | weatherApp.js:188-193 | A missing pollutant's column shows the value at the same position of `Object.values(aqiInfo)`, which can belong to a different pollutant. |
| `Render.RenderedTablesHaveValueRows` | weatherApp.js:99-134 | Every rendered table has data, so its value row is as wide as its heading row and the spanning placeholder never appears. |

## Left out

- The fetch chain is left out: `fetch`, the HTTP status check, `response.json()` and the `console.error` in `catch` (weatherApp.js:25-40). These are network I/O and promise plumbing. A failed request therefore has no model; in the code it leaves the containers untouched.
- DOM wiring is left out: `DOMContentLoaded`, `getElementById`, the submit listener, `event.preventDefault()` and showing the alert (weatherApp.js:4-13, 21). The alert is the `Alert` outcome, and containers are lists of children.
- Overlapping submissions are left out. Whichever fetch completes last wins; that is event-loop concurrency, not sequential logic.
- Cell text is left out. A cell holds the `Value` assigned to `textContent`, not the string the browser makes from it (number formatting, array joining).
- `WeatherData.RainfallProbability`: inputs are real numbers. JavaScript's comparisons on `NaN`, `null`, `undefined` or strings are not modelled.
- `WeatherData.ProcessData`: the response is typed. A response lacking `current` or `location` throws a TypeError inside the promise chain; that path is left out with the fetch chain.
- `Tables.ValueCell`: a heading missing from the heading map is treated as "not in the data". JavaScript would test the property named `"undefined"`.
- `Text.Trim`: characters are Unicode scalar values. Lone UTF-16 surrogates, which a JavaScript string can hold, are not represented.
- URL building: the city name is interpolated into the URL unencoded (weatherApp.js:26). The model does not build the URL.
- JsValues.WithLocationInfo: objects are own-property lists in insertion order. Array-index names (`"0"`, `"1"`, ...), which JavaScript lists first in ascending order, are not modelled; with such names `locationInfo` would not come first. Properties that hold `undefined` are not modelled either. The program's pollutant and heading-map names are ordinary names, so they are unaffected.
- JsValues.Get: `key in data` is modelled on own properties only. JavaScript's `in` also finds names inherited from `Object.prototype`, such as `"toString"`. No heading-map value is such a name.
