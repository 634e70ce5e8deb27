# TTC stop arrival engine

A Dafny model of the decision logic inside `TtcBasicEtaInfo`, the React
component that shows arrival countdowns for one Toronto transit stop
(`src/components/fetch/FetchSubwayStop.tsx`). The component:

- enables exactly one of two upstream queries, the subway one for lines up
  to 6 and the bus one above;
- puts a freshness token, `lastUpdatedAt`, into both query keys, and
  overwrites it with the current time when the user presses refresh;
- picks a primary record (bus data wins whenever it is present at all)
  and turns either response shape into countdown seconds,
  `Number.parseInt(minutes) * 60`;
- renders LOADING, NOT_FOUND or READY, in that order of checks.

Files, leaves first:

- `wrappers.dfy`: `Option`, standing for JavaScript's `undefined` and for `NaN`.
- `js_text.dfy`: ECMAScript white space, `split` on one character with its
  inverse `Join`, and the first piece of `split(" - ")`.
- `js_number.dfy`: `Number.parseInt` without a radix, and integer `toString`.
- `queries.dfy`: source selection and the two query keys.
- `predictions.dfy`: the two response shapes and the primary record.
- `normalise.dfy`: the `data`, `etaArray` and `etaElements` memos.
- `render.dfy`: the classification and the READY view as values.
- `eta_info.dfy`: the component's one state cell as a class with
  `FetchPredictions(now)`.

Modelling choices:

- The two queries' data are an input, `Responses(subway, bus)`. Each is an
  `Option<seq<...>>`, so an absent response (`None`) stays distinct from
  an empty array (`Some([])`).
- The countdown fields `nextTrains` and `nextBusMinutes` are
  `Option<string>`, so a record without them can be written. Without bus
  data, a first subway record with no `nextTrains` makes `split` throw. A
  bus without `nextBusMinutes` is read by `parseInt` as the text
  `"undefined"`, which is `NaN`.
- Any other optional text field that upstream leaves out is `""`. In
  JavaScript both read as falsy. A missing `Error` flag is `false`.
- `parseInt` follows ECMAScript. It skips leading StrWhiteSpaceChar, takes
  one optional `+` or `-`, and reads hexadecimal after a `0x`/`0X` prefix
  (with no radix argument, that is what `parseInt` does). Then it takes the
  longest run of digits; no digits at all gives `NaN`, modelled as `None`.
  So `"0x5"` counts down 300 seconds, and `"0x"` and `"abc"` count down `NaN`.
- Without bus data, `subway.data?.[0].nextTrains.split(",")` throws in two
  cases: when the subway array is empty, and when its first record has no
  `nextTrains`. `CanNormalise` is the precondition that excludes those
  inputs.
- The current time is a parameter of the constructor and of
  `FetchPredictions`. It is not assumed to increase.

Three consequences of the code as written, which the model keeps:

- An empty bus array is truthy. It wins precedence, has no `[0]`, and so
  renders LOADING, not the "no ETA" text (`Render.EmptyBusArrayIsLoading`).
- As a result a READY screen never shows the "no ETA" text. A present
  subway record always splits into at least one token, and a present bus
  record comes from a non-empty array. The "no ETA" text is computed only
  for screens that show LOADING (`Render.ReadyHasCountdowns`).
- Only the first bus is checked for `nextBusMinutes` (line 79). When the
  first bus lacks it, neither shape check passes and READY shows nothing
  where the countdowns go. Otherwise READY has at least one countdown. A
  later bus without the field still gets a countdown in its place, and
  that countdown is `NaN` (`Normalise.LaterBusWithoutMinutesIsNaN`).
- The token is `Date.now()`, so nothing makes it non-decreasing. The model
  proves only what the code guarantees: the enabled key changes exactly when the
  new time differs from the old token.

## Model

| member | source | states |
|---|---|---|
| `Queries.SelectSource` | src/components/fetch/FetchSubwayStop.tsx:23-36 | the source for a line: subway up to line 6, bus above; its property is `ExactlyOneEnabled` and `SourceBoundary` |
| `Queries.SubwayQuery` | src/components/fetch/FetchSubwayStop.tsx:23-27 | the subway intent: key of stop number and token, enabled for subway lines; its properties are `SubwayKeyDeterminedBy` and `ExactlyOneEnabled` |
| `Queries.BusQuery` | src/components/fetch/FetchSubwayStop.tsx:29-36 | the bus intent: key of line, stop number and token, enabled above line 6; its properties are `BusKeyDeterminedBy` and `ExactlyOneEnabled` |
| `Queries.ExactlyOneEnabled` | src/components/fetch/FetchSubwayStop.tsx:23-36 | for every line exactly one query is enabled: subway iff `line <= 6`, bus iff `line > 6` |
| `Queries.SourceBoundary` | src/components/fetch/FetchSubwayStop.tsx:26-35 | line 6 selects subway, line 7 selects bus |
| `Queries.SubwayKeyDeterminedBy` | src/components/fetch/FetchSubwayStop.tsx:25 | two subway keys are equal iff their stop numbers and tokens are equal; the line plays no part |
| `Queries.BusKeyDeterminedBy` | src/components/fetch/FetchSubwayStop.tsx:31-34 | two bus keys are equal iff line, stop number and token are all equal (the `-` separator cannot be confused with a sign) |
| `Queries.SubwayAndBusKeysDiffer` | src/components/fetch/FetchSubwayStop.tsx:25-34 | no subway key equals any bus key |
| `EtaInfo.TtcBasicEtaInfo.constructor` | src/components/fetch/FetchSubwayStop.tsx:19 | the token starts at the mount time; line and stop number are the props |
| `EtaInfo.TtcBasicEtaInfo.FetchPredictions` | src/components/fetch/FetchSubwayStop.tsx:52-58 | the token becomes `now` and nothing else changes; the enabled flags stay; the active key changes iff `now` differs from the old token, so a second refresh at the same time does not refetch |
| `EtaInfo.TtcBasicEtaInfo.ActiveKey` | src/components/fetch/FetchSubwayStop.tsx:23-36 | the key of the one enabled query for this component's line; `FetchPredictions` states when it changes |
| `Normalise.PrimaryOf` | src/components/fetch/FetchSubwayStop.tsx:38-43 | `data`: the first bus if bus data is present, else the first subway record; stated by `BusTakesPrecedence` and `SubwayWithoutBus` |
| `Normalise.CanNormalise` | src/components/fetch/FetchSubwayStop.tsx:45-50 | the inputs for which `etaArray` does not throw: bus data present, or no subway data, or a first subway record that has `nextTrains` |
| `Normalise.EtaSourceOf` | src/components/fetch/FetchSubwayStop.tsx:45-50 | `etaArray`: the bus list, or the first subway record's `nextTrains` split on `,`; stated by `BusTakesPrecedence`, `SubwayWithoutBus` and `SubwayCountdowns` |
| `Normalise.Countdown` | src/components/fetch/FetchSubwayStop.tsx:73 | `parseInt(minutes) * 60`, with `NaN` kept as `NaN`; stated by `NumeralCountdown`, `CountdownOfNumeral` and `UnparseableMinutesKeepTheirPlace` |
| `Normalise.FieldText` | src/components/fetch/FetchSubwayStop.tsx:85 | a missing field is converted to the text `"undefined"` before parsing; `MissingMinutesIsNaN` states the result |
| `Normalise.MissingMinutesIsNaN` | src/components/fetch/FetchSubwayStop.tsx:85 | a bus without `nextBusMinutes` counts down `NaN` |
| `Normalise.EtaElements` | src/components/fetch/FetchSubwayStop.tsx:65-92 | `etaElements`: "no ETA" for a missing or empty array, nothing when the first bus lacks `nextBusMinutes`, else one countdown per element; stated by `SubwayCountdowns`, `BusCountdowns` and `Render.ReadyHasCountdowns` |
| `Normalise.BusTakesPrecedence` | src/components/fetch/FetchSubwayStop.tsx:38-50 | with bus data present, even empty, the subway data is ignored: the primary record is `bus[0]` (absent for `[]`) and the countdown source is the bus list |
| `Normalise.SubwayWithoutBus` | src/components/fetch/FetchSubwayStop.tsx:42-49 | without bus data the primary record is `subway[0]` and the countdown source is its `nextTrains` split on `,`; absent subway data gives neither |
| `Normalise.CountdownsOf` | src/components/fetch/FetchSubwayStop.tsx:69-76 | one countdown per token, in token order, entry i is `parseInt(token_i) * 60` |
| `Normalise.BusCountdownsOf` | src/components/fetch/FetchSubwayStop.tsx:79-90 | one countdown per bus element, in upstream order, entry i is `parseInt(nextBusMinutes_i) * 60`, `NaN` for a bus without the field |
| `Normalise.SubwayCountdowns` | src/components/fetch/FetchSubwayStop.tsx:45-76 | a subway response yields exactly (commas + 1) countdowns, never "no ETA", and the tokens join back to `nextTrains` |
| `Normalise.BusCountdowns` | src/components/fetch/FetchSubwayStop.tsx:45-90 | a bus response yields "no ETA" exactly for an empty array, nothing exactly when the first bus lacks `nextBusMinutes`, and otherwise one countdown per bus in order |
| `Normalise.LaterBusWithoutMinutesIsNaN` | src/components/fetch/FetchSubwayStop.tsx:79-90 | only the first bus is shape-checked: a later bus without `nextBusMinutes` keeps its place as a `NaN` countdown |
| `Normalise.UnparseableMinutesKeepTheirPlace` | src/components/fetch/FetchSubwayStop.tsx:73 | any token that `parseInt` reads as `NaN` stays in its own place as a `NaN` countdown and the list keeps its length |
| `Normalise.NumeralCountdown` | src/components/fetch/FetchSubwayStop.tsx:85 | minutes written as a numeral, optionally followed by non-numeric text, count down that many minutes times 60 |
| `Normalise.CountdownOfNumeral` | src/components/fetch/FetchSubwayStop.tsx:73 | minutes that are exactly a numeral count down its value times 60 |
| `Normalise.SubwayExample` | src/components/fetch/FetchSubwayStop.tsx:69-76 | `nextTrains` `"3,9,15"` gives 180, 540, 900 seconds |
| `Normalise.BusExample` | src/components/fetch/FetchSubwayStop.tsx:79-90 | `["5", "12"]` gives 300, 720 seconds, in that order, whatever the subway data |
| `JsNumber.ParseInt` | src/components/fetch/FetchSubwayStop.tsx:73 | `Number.parseInt` without a radix; stated by `ParseIntNaNExactly`, `ParseIntOfNumeral`, `ParseIntSkipsWhiteSpace`, `ParseIntNoDigits` and `ParseIntHexPrefix` |
| `JsNumber.ParseIntNaNExactly` | src/components/fetch/FetchSubwayStop.tsx:73 | `parseInt` is `NaN` exactly when, after white space and one optional sign, the text ends, or does not start with a decimal digit, or is `0x`/`0X` not followed by a hexadecimal digit |
| `JsNumber.IntToString` | src/components/fetch/FetchSubwayStop.tsx:124 | integer `toString`, used for the query keys (line 25) and the bookmark line; stated by `NatToString`, `IntToStringInjective` and `ParseIntOfNumeral` |
| `JsText.TrimStartDropsLeadingWhiteSpace` | src/components/fetch/FetchSubwayStop.tsx:73 | trimming leaves the suffix after the leading run of white space: everything dropped is white space and what is left does not start with it |
| `JsText.TrimStartSkips` | src/components/fetch/FetchSubwayStop.tsx:73 | leading white space in front of a string does not change what is left after trimming |
| `JsText.Split` | src/components/fetch/FetchSubwayStop.tsx:49 | `split(",")` gives one piece more than there are commas, and no piece contains a comma |
| `JsText.JoinSplit` | src/components/fetch/FetchSubwayStop.tsx:49 | joining the pieces with commas gives the original text: nothing is lost or reordered |
| `JsText.SplitJoin` | src/components/fetch/FetchSubwayStop.tsx:49 | splitting comma-free pieces joined by commas gives back exactly those pieces |
| `JsText.FindFrom` | src/components/fetch/FetchSubwayStop.tsx:112 | the first occurrence of the separator at or after an index, or the end when there is none |
| `JsText.PrefixBefore` | src/components/fetch/FetchSubwayStop.tsx:112 | `split(sep)[0]` is the prefix in front of the first occurrence of `sep`, or the whole text |
| `JsNumber.LeadingDigitsIsLongestRun` | src/components/fetch/FetchSubwayStop.tsx:73 | the digits read are a prefix of the text, all digits of the radix, and followed by the end or a non-digit |
| `JsNumber.NatToString` | src/components/fetch/FetchSubwayStop.tsx:25 | a non-empty string of decimal digits, with no leading zero except for 0, that denotes the number |
| `JsNumber.ParseIntOfNumeral` | src/components/fetch/FetchSubwayStop.tsx:73 | `parseInt(n.toString() + t) == n` when `t` cannot continue the numeral |
| `JsNumber.IntToStringInjective` | src/components/fetch/FetchSubwayStop.tsx:25 | distinct integers have distinct `toString` |
| `JsNumber.IntToStringMinusOnlyFirst` | src/components/fetch/FetchSubwayStop.tsx:32 | a numeral is non-empty and has a `-` at most in front |
| `JsNumber.ParseIntSkipsWhiteSpace` | src/components/fetch/FetchSubwayStop.tsx:73 | leading white space never changes the parse |
| `JsNumber.ParseIntNoDigits` | src/components/fetch/FetchSubwayStop.tsx:73 | text starting with something other than white space, a sign or a digit parses to `NaN` |
| `JsNumber.ParseIntHexPrefix` | src/components/fetch/FetchSubwayStop.tsx:85 | `parseInt("0x" + ds + t)` is the hexadecimal value of the digit run `ds` when `t` does not continue it |
| `Render.Classify` | src/components/fetch/FetchSubwayStop.tsx:94-105 | the ordered classification: no record is LOADING, then `Error` is NOT_FOUND, else READY; stated by `View` and `ClassificationOrder` |
| `Render.ReadyView` | src/components/fetch/FetchSubwayStop.tsx:107-131 | the READY screen's parts; stated by `ReadyDisplayRules` |
| `Render.StationTitle` | src/components/fetch/FetchSubwayStop.tsx:112 | `stop.name.split(" - ")[0]`; stated by `StationTitleIsPrefixBeforeDash` |
| `Render.BookmarkNameOf` | src/components/fetch/FetchSubwayStop.tsx:122 | `directionText || stopNum`; stated by `ReadyDisplayRules` |
| `Render.View` | src/components/fetch/FetchSubwayStop.tsx:94-131 | the rendered screen's state is the one the ordered classification gives |
| `Render.ClassificationOrder` | src/components/fetch/FetchSubwayStop.tsx:94-105 | no primary record is LOADING with refresh; else `Error` is NOT_FOUND without refresh, whatever the countdowns; else READY with the countdowns and the raw record |
| `Render.EmptyBusArrayIsLoading` | src/components/fetch/FetchSubwayStop.tsx:39-101 | an empty bus array renders LOADING, whatever the subway data |
| `Render.ReadyHasCountdowns` | src/components/fetch/FetchSubwayStop.tsx:65-128 | a READY screen never shows "no ETA"; it shows nothing exactly when its record is a bus without `nextBusMinutes`, and otherwise at least one countdown |
| `Render.ReadyDisplayRules` | src/components/fetch/FetchSubwayStop.tsx:107-127 | destination title iff `line > 6`; station header iff metadata, titled by the name before `" - "`; alerts and bookmark for this line; bookmark name is the direction text or, when empty, the stop number |
| `Render.StationTitleIsPrefixBeforeDash` | src/components/fetch/FetchSubwayStop.tsx:112 | the station title is the stop name up to its first `" - "`, or the whole name |
| `Render.BookmarkLineReadsBack` | src/components/fetch/FetchSubwayStop.tsx:124 | the bookmark's one line label parses back to the line number |

## Left out

- The TanStack `useQuery` layer (lines 23-36): network I/O, caching, retries and overlapping in-flight requests are external and concurrent. Only the key and the `enabled` flag are modelled; the fetched data is an input.
- The Redux store lookup (lines 60-63) is a global singleton: station metadata is an optional parameter.
- `Date.now()` (lines 19, 53) reads the wall clock: the time is a parameter.
- JSX, the rendering components, `RefreshButton` (lines 134-142) and React `key` strings (lines 72, 83) are rendering: the model produces their inputs as values.
- `useTranslation`: the loading, fail-to-locate and no-ETA messages are the `LoadingScreen`, `NotFoundScreen` and `NoEta` variants.
- `fetchPredictionClick` (lines 56-58) only calls `fetchPredictions`. It is modelled by `FetchPredictions`.
- `ParseIntOfNumeral`: numbers are unbounded integers. Floating-point rounding of very long numerals, `-0`, and `toString` of non-integers or exponent notation are not modelled.
- `Normalise.EtaElements`: the check `typeof etaArray[0] === "string"` (line 69) is replaced by the tag of `EtaSource`. Upstream bus elements are objects and subway tokens are strings, so the tag decides the same way. `"nextBusMinutes" in etaArray[0]` (line 79) is modelled; a field that is present with the value `undefined` is not distinguished from a missing one.
- `CanNormalise`: the two exceptions thrown without bus data, for an empty subway array and for a first subway record without `nextTrains`, are excluded by precondition rather than modelled as outcomes.
