# Weather-code translator

A model of `getWeatherCondition`, the pure core of a small Open-Meteo client.
The function turns a WMO weather interpretation code into a human-readable
description. The codes come from WMO code table 4677 ("ww, present weather"),
in the subset Open-Meteo reports. The source writes a `Record<number, string>`
object literal with 28 entries and returns `codes[code] || "Unknown"`.

The model has two modules:

- `JsObject` (`js_object.dfy`) holds the few JavaScript rules that line needs.
  An object literal is a sequence of `key: value` definitions, and
  `ObjectOf` evaluates it in source order, so a later definition of a key
  wins. A property read yields `undefined` when the key is absent (`Get`).
  `Or` is `||` on a string that may be missing: `undefined` and `""` are
  falsy. An integer literal key and an integer index both become the same
  canonical property name, so keys are modelled as `int`.
- `WeatherCondition` (`weather_condition.dfy`) holds the literal as
  `CodeTable`, in source order, and `GetWeatherCondition` as
  `Or(Get(ObjectOf(CodeTable), code), "Unknown")`, which is the source
  expression term for term.

Because `||` falls back on any falsy value, the plain reading "the table's
entry, else Unknown" is only correct if no description is empty. The model
proves this instead of assuming it (`FallbackOnlyForMissingKey`). It also
proves that no description equals "Unknown", so "Unknown" comes back exactly
for unlisted codes.

## Model

| member | source | states |
|---|---|---|
| `JsObject.ObjectOfHasDefinedKey` | src/lib/api.ts:26-55 | Every key the literal defines is a key of the object it evaluates to. |
| `JsObject.ObjectOfFromDefinition` | src/lib/api.ts:26-55 | Every key of the object, together with its value, comes from some definition in the literal. |
| `JsObject.ObjectOfLastDefinitionWins` | src/lib/api.ts:26-55 | A key holds the value of its last definition: later definitions in source order replace earlier ones. |
| `JsObject.DistinctKeysAllLast` | src/lib/api.ts:26-55 | When no key is defined twice, no definition of the literal is overridden. |
| `JsObject.IncreasingKeysDistinct` | src/lib/api.ts:27-54 | A literal whose keys are listed in increasing order defines no key twice. |
| `JsObject.OrFallsBackOnlyWhenAbsent` | src/lib/api.ts:56 | If no value of the object is `""`, then `o[key] \|\| fallback` is `o[key]` for a present key and `fallback` exactly for an absent one. |
| `JsObject.DistinctValuesInjective` | src/lib/api.ts:26-55 | A literal with pairwise distinct values evaluates to an object where no two keys share a value. |
| `WeatherCondition.TableDescriptionsWellFormed` | src/lib/api.ts:27-54 | Every description in the table is non-empty (truthy) and differs from "Unknown". |
| `WeatherCondition.TableKeysDistinct` | src/lib/api.ts:27-54 | The 28 codes are listed in increasing order, so no code is listed twice. |
| `WeatherCondition.TableValuesDistinct` | src/lib/api.ts:27-54 | No description is listed twice. |
| `WeatherCondition.CodesMatchTable` | src/lib/api.ts:26-55 | The `codes` object has a code as a key exactly when the literal lists it. The value is the listed description, which is neither empty nor "Unknown". |
| `WeatherCondition.GetWeatherCondition` | src/lib/api.ts:25-57 | Total on integers, and the result is never empty. A listed code yields its own table description. The result is "Unknown" if and only if the code is not listed. |
| `WeatherCondition.FallbackOnlyForMissingKey` | src/lib/api.ts:26-56 | The `\|\|` fallback fires only for a missing key. The translator equals "the table's entry if present, otherwise Unknown". |
| `WeatherCondition.ListedSkyCondition` | src/lib/api.ts:27-30 | 0 → "Clear sky", 1 → "Mainly clear", 2 → "Partly cloudy", 3 → "Overcast". |
| `WeatherCondition.ListedFog` | src/lib/api.ts:31-32 | 45 → "Fog", 48 → "Depositing rime fog". |
| `WeatherCondition.ListedDrizzle` | src/lib/api.ts:33-37 | 51, 53, 55, 56 and 57 each yield their drizzle or freezing-drizzle description. |
| `WeatherCondition.ListedRain` | src/lib/api.ts:38-42 | 61, 63, 65, 66 and 67 each yield their rain or freezing-rain description, e.g. 61 → "Rain: Slight". |
| `WeatherCondition.ListedSnow` | src/lib/api.ts:43-46 | 71, 73, 75 and 77 each yield their snow-fall or snow-grains description. |
| `WeatherCondition.ListedShowers` | src/lib/api.ts:47-51 | 80, 81, 82, 85 and 86 each yield their rain-shower or snow-shower description. |
| `WeatherCondition.ListedThunderstorm` | src/lib/api.ts:52-54 | 95, 96 and 99 each yield their thunderstorm description, e.g. 99 → "Thunderstorm with heavy hail". |
| `WeatherCondition.DefinedCodes` | src/lib/api.ts:27-54 | The literal defines a code if and only if the code is one of {0,1,2,3,45,48,51,53,55,56,57,61,63,65,66,67,71,73,75,77,80,81,82,85,86,95,96,99}. |
| `WeatherCondition.CodesKeys` | src/lib/api.ts:26-55 | The key set of the `codes` object is exactly that set of 28 codes. |
| `WeatherCondition.UnknownExactlyWhenUnrecognised` | src/lib/api.ts:56 | The result is "Unknown" if and only if the code is not among the 28 recognised codes. |
| `WeatherCondition.UnlistedExamples` | src/lib/api.ts:56 | 4, 7, 50, 100 and -1 each yield "Unknown". |
| `WeatherCondition.OutOfRangeUnknown` | src/lib/api.ts:27-56 | Every recognised code lies in 0..99, so any code below 0 or above 99 yields "Unknown". |
| `WeatherCondition.DescriptionsDistinguishCodes` | src/lib/api.ts:27-56 | Two different codes get the same description only when both are unrecognised and the description is "Unknown". So the table is injective. |

## Left out

- `searchLocation` (src/lib/api.ts:4-11) and `getWeather` (src/lib/api.ts:14-22) are left out. Each makes one `fetch` call, checks the status and returns `res.json()`. That is network I/O and foreign JSON parsing, with nothing to verify.
- URL construction is left out. It relies on the built-in `encodeURIComponent` (src/lib/api.ts:7) and on JavaScript's number-to-string formatting of `lat`/`lon` (src/lib/api.ts:18). Neither is implemented by this code.
- src/lib/types.ts is not part of this model. It declares interfaces only, with no behaviour. The alignment of the hourly arrays is assumed there and never checked.
- `GetWeatherCondition` takes an `int`, not a JavaScript `number`. Non-integer inputs such as 2.5, and `NaN`, are not modelled. (Such inputs find no property in the table either.)
- Property names: the model identifies an integer key with its canonical string name. Inherited properties of `Object.prototype` are not modelled, because none of them has a numeric name.
