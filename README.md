# Strava to Google Sheets importer: verified model of its core

The importer is a Google Apps Script (`apps-script/src/Code.js`). It pulls
running activities from the Strava API into a spreadsheet. A small Python
tool (`tools/convert_to_kepler.py`) turns the exported sheet into a CSV file
for Kepler.gl. This project models the decision logic of both in Dafny and
proves what that logic promises:

- **Token lifecycle** (`token_manager.dfy`). The script property store is a
  `map<string, string>` field of the class `CredentialStore`. The OAuth 2.0
  token endpoint is a function parameter from the request sent to the
  response received. `now` is a parameter too. The setup dialog performs the
  authorization-code grant (section 4.1 of RFC 6749). Token use performs the
  refresh grant (section 6 of RFC 6749).
- **Heart-rate zones** (`hr_zones.dfy`). This part sums the seconds spent in
  each of the five zones. Ratios are compared by cross-multiplication. When a
  heart-rate sample after the first falls in a zone but lies past the end of
  the time series, that zone's sum becomes JavaScript NaN, which is modelled
  as `None`. A shorter time series whose missing positions hold only
  unclassified samples still gives numbers.
- **Pace display** (`pace.dfy`). This covers `mm:ss` formatting and its
  read-back.
- **Gear mileage ledger** (`gear_ledger.dfy`). This covers de-duplicated gear
  ids, the per-id lookup with its fallback, and the per-batch consumed-km
  dictionary that produces `gear_km_after_run`.
- **Append-only merges** (`sheet_sync.dfy`). These are StravaData → Data and
  Splits → SplitsDataStored. Sheets are objects whose `rows` are replaced.
  The merge they perform is specified by the function `Merged`.
- **Kepler.gl conversion** (`kepler.dfy`). This covers the delimiter guess,
  `lat,lng` parsing, the coordinate swap and the row loop. Python `float()`
  and the polyline decoder are function parameters.
- Shared helpers (`text.dfy`, `wrappers.dfy`). These model whitespace
  trimming, splitting on one character, `String(n)` for integers and
  `parseInt`.

## Model

| member | source | states |
|---|---|---|
| TokenManager.CredentialStore.GetValidAccessToken | apps-script/src/Code.js:85-130 | Missing client id, secret or refresh token: fails, sends no request, store unchanged. Fresh cached token: returned with no request or write. Otherwise one refresh grant with the stored credentials is sent. Non-200: fails with the body and leaves the store unchanged. 200: returns the new access token and stores all three token fields from the response. |
| TokenManager.CredentialStore.SetupFromDialog | apps-script/src/Code.js:44-81 | Sends the code grant with trimmed id, secret and code. The trimmed id and secret are stored whatever the outcome. Non-200 fails with the body. 200 also stores the three token fields and returns the confirmation text. |
| TokenManager.StoreTokens | apps-script/src/Code.js:124-126 | Access token, refresh token and `String(expires_at)` read back as the response's values. Every other key is unchanged. The key set grows by just those three. |
| TokenManager.CachedTokenUsable | apps-script/src/Code.js:100 | The cached token is usable exactly when it is non-empty and the stored expiry parses with `parseInt` to more than `now + 300`. A blank expiry is never usable. |
| TokenManager.StoredExpiryReadsBack | apps-script/src/Code.js:126 | The stored expiry text parses back with `parseInt` to the response's expiry. |
| TokenManager.RefreshedTokenIsReused | apps-script/src/Code.js:99-102 | After a refresh whose token outlives `now + 300`, the cached path is taken at the same `now`. Credentials stay complete exactly when the new refresh token is non-empty. |
| TokenManager.ExpiryAtMarginRefreshes | apps-script/src/Code.js:100 | The margin is strict: a token expiring exactly at `now + 300` is not reused. |
| TokenManager.SetupEnablesRefresh | apps-script/src/Code.js:50-72 | A successful setup with a non-blank id, secret and refresh token leaves complete credentials. |
| HeartRateZones.Classify | apps-script/src/Code.js:217-228 | No zone exactly when `hr <= 0` or the ratio is below Z1. Otherwise the zone's bound is reached and no higher zone's is. |
| HeartRateZones.ReachesLowerZones | apps-script/src/Code.js:4-10 | Reaching a zone implies reaching every lower zone. |
| HeartRateZones.BoundaryBelongsToZone | apps-script/src/Code.js:224-228 | Bounds are inclusive: a ratio exactly at a zone's minimum is in that zone. |
| HeartRateZones.EightyPercentIsZ4 | apps-script/src/Code.js:225 | 152 bpm with a maximum of 190 (exactly 80 %) is Z4. |
| HeartRateZones.ZonesPartitionClassified | apps-script/src/Code.js:215-229 | With a time series as long as the heart-rate one, the five zone sums add up to the classified samples' seconds. |
| HeartRateZones.AllClassifiedCoversRecording | apps-script/src/Code.js:219-220 | When every sample is classified, the classified seconds are `1 + last - first` of the time series. |
| HeartRateZones.ClassifiedWithinRecording | apps-script/src/Code.js:219-220 | With non-decreasing times, the classified seconds never exceed `1 + last - first`. |
| HeartRateZones.RoundTenths | apps-script/src/Code.js:232-236 | The tenths `t` of a minute lie within half a tenth of the seconds, rounded half up: `s - 3 < 6t <= s + 3`. |
| HeartRateZones.ComputeTimeInZones | apps-script/src/Code.js:201-238 | Without streams, series or heart-rate samples: five blanks, not zeros. Otherwise each zone's cell is the rounded zone sum (or NaN) of the reference function over all samples. |
| Pace.Round | apps-script/src/Code.js:244 | `Math.round` gives the integer within half of `x`, halves going up. |
| Pace.Pad2 | apps-script/src/Code.js:247 | The result is digits only, at least two of them, exactly two below 100, and without a leading zero from 10 on (`String(mm)`). |
| Pace.Pad2Value | apps-script/src/Code.js:247 | The padded digits read back as the number. |
| Pace.FormatPace | apps-script/src/Code.js:242-248 | The display is empty exactly when the pace is not positive. Otherwise it is five characters when the minutes are below 100, and it starts with a non-zero digit from 10 minutes on. |
| Pace.FormatPaceRoundTrip | apps-script/src/Code.js:242-248 | The display reads back as minutes and seconds of the rounded total. They recompose the total, and the seconds are below 60. |
| Pace.SecondsFieldHasTwoDigits | apps-script/src/Code.js:246-247 | The seconds field is always two characters whose first is 0-5, whatever the length of the minutes. |
| Pace.PaceSecondsPerKm | apps-script/src/Code.js:455-457 | Zero without distance. Otherwise pace times kilometres is the moving time. |
| Pace.FormatPaceExamples | apps-script/src/Code.js:242-248 | 125 s → "02:05", 300 s → "05:00", 0.4 s → "00:00", and 10 km in 3000 s → "05:00". |
| Pace.FormatPaceLongExamples | apps-script/src/Code.js:247 | 600 s → "10:00" and 6000 s → "100:00": from 10 minutes on the minutes field is not padded. |
| GearLedger.Distinct | apps-script/src/Code.js:447 | Same members as the input, with no duplicates. |
| GearLedger.DistinctKeepsFirstOccurrenceOrder | apps-script/src/Code.js:447 | The distinct values are ordered by their first occurrence in the input. |
| GearLedger.GearIdsOf | apps-script/src/Code.js:447 | An id is listed exactly when it is non-empty and some activity has it. There are never more ids than activities. |
| GearLedger.GearIdsOfConcat | apps-script/src/Code.js:447 | Mapping to `gear_id` and filtering out blanks commutes with concatenation, so the ids keep the activities' order. |
| GearLedger.GearIdsFirstUseOrder | apps-script/src/Code.js:447 | One id comes before another in the filtered list exactly when its gear's first activity comes first in the batch. |
| GearLedger.DistinctGearIds | apps-script/src/Code.js:447 | Exactly the non-empty gear ids of the batch, each once. |
| GearLedger.DistinctGearIdsInFirstUseOrder | apps-script/src/Code.js:447 | The distinct ids are listed in the order in which the batch first uses each gear. |
| GearLedger.EntryFor | apps-script/src/Code.js:264-275 | A failed lookup gives `{name: id, distanceKm: ''}`. A successful one gives the distance in km and the remote gear's name, or the id when that name is empty (`g.name || id`). The name is never empty for a non-empty id. |
| GearLedger.GetGearInfo | apps-script/src/Code.js:250-279 | The map's keys are exactly the ids, and each entry is that id's lookup outcome. |
| GearLedger.AttributeGear | apps-script/src/Code.js:477-488 | Column `k` is blank without a gear id or entry. Otherwise it is the name and the total now minus the km of the earlier activities with that gear, per `ExpectedColumns`. The loop invariant ties the mutated consumed dictionary to `ConsumedBefore`. |
| GearLedger.GearColumnsOfBatch | apps-script/src/Code.js:447-488 | For every activity, the composed id, lookup and ledger steps produce the columns of the lookups alone (`BatchColumns`). Every non-empty gear id has an entry. |
| GearLedger.FirstUseReportsTotal | apps-script/src/Code.js:485 | Nothing is consumed before the first activity of a gear, so it reports the full current total. |
| GearLedger.ConsumedStep | apps-script/src/Code.js:487 | Only the activity's own gear counter advances, and by exactly its distance. |
| GearLedger.ConsumedGrows | apps-script/src/Code.js:487 | A later activity of a gear sees at least the earlier one's distance consumed. |
| GearLedger.ReportedMileageDecreases | apps-script/src/Code.js:484-487 | For non-negative distances, a later activity of a gear reports at most the earlier report minus the earlier distance. |
| SheetSync.CollectKeys | apps-script/src/Code.js:335-342 | The built key set equals the keys of the keyed destination data rows. |
| SheetSync.NewRows | apps-script/src/Code.js:344-348 | Only source rows that are keyed and not yet stored are kept, and never more rows than the source has. |
| SheetSync.NewRowsConcat | apps-script/src/Code.js:344-348 | The filter commutes with concatenation, so source order is kept. |
| SheetSync.NewRowsCount | apps-script/src/Code.js:344-348 | Each eligible row is appended as often as it occurs in the source, and no other row is. |
| SheetSync.NewRowsOfKnownKeys | apps-script/src/Code.js:380 | When every keyed source row's key is already stored, nothing is appended. |
| SheetSync.Merged | apps-script/src/Code.js:317-355 | A source without data rows leaves the destination as it is. Existing rows, header included, are a prefix of the result. An empty destination gets the source header when seeding. |
| SheetSync.KeysAfterAppend | apps-script/src/Code.js:350-354 | After a merge, every keyed source row's key is stored. |
| SheetSync.MergeIdempotent | apps-script/src/Code.js:317-355 | A second merge right after the first appends nothing, given a header row: always when seeding, otherwise when the destination was not empty. |
| SheetSync.NumericKeysInjective | apps-script/src/Code.js:340 | For numeric id and km cells, two `id|km` keys are equal only when both cell pairs are. |
| SheetSync.DataSyncAsWrittenRepeatsFirstRow | apps-script/src/Code.js:372-384 | As written, a data sync into an empty Data sheet puts the first data row in row 1. The next sync appends that row again. |
| SheetSync.SplitsScenario | apps-script/src/Code.js:344-348 | With `(1,1)` stored, merging a source with `(1,1)` and `(1,2)` appends only `(1,2)`. |
| SheetSync.AppendNewRows | apps-script/src/Code.js:325-354 | The destination's new rows are `Merged` of its old rows and the source. |
| SheetSync.SyncStravaToData | apps-script/src/Code.js:359-386 | A missing sheet is an error, with the destination untouched. Otherwise Data becomes the seeded `Merged` keyed on the id column (corrected header seeding). |
| SheetSync.SyncStravaToDataAsWritten | apps-script/src/Code.js:359-386 | Same error cases. Otherwise Data becomes `Merged` without header seeding, as the code is written. |
| SheetSync.SyncSplitsToStored | apps-script/src/Code.js:317-355 | No source or no split rows: nothing changes. Otherwise the stored sheet (fresh when missing) becomes the seeded `Merged` keyed on `id|km`. |
| Text.Trim | tools/convert_to_kepler.py:69-73 | `strip()` returns a slice `s[i..j]` of the text with only whitespace before `i` and after `j`. The slice is empty exactly when the text is all whitespace, and otherwise starts and ends with a non-space character. |
| Text.TrimOfTrimmed | apps-script/src/Code.js:50-51 | Text without surrounding whitespace is unchanged by `trim()`. |
| Text.Split | tools/convert_to_kepler.py:32 | `split(",")` gives one more part than there are commas, and no part holds a comma. |
| Text.SplitAtOnlySeparator | tools/convert_to_kepler.py:32 | Splitting at the only separator gives back the two sides. |
| Text.NatToString | apps-script/src/Code.js:247 | Decimal digits without a leading zero, one digit below 10 and two below 100. |
| Text.IntToString | apps-script/src/Code.js:340 | `String(n)` is non-empty, does not start with a space and contains no `|`, `:` or `,`. |
| Text.ParseInt | apps-script/src/Code.js:100 | `parseInt` of blank text is NaN (`None`). Of a non-empty digit string it is the digits' decimal value. |
| Text.IntToStringRoundTrip | apps-script/src/Code.js:100 | `parseInt` reads back whatever `String(n)` writes. |
| Text.IntToStringInjective | apps-script/src/Code.js:340 | Distinct integers have distinct decimal texts. |
| Kepler.Sample | tools/convert_to_kepler.py:43 | The sample is the first 2048 characters, or the whole text when shorter. |
| Kepler.DetectDelimiter | tools/convert_to_kepler.py:38-50 | Tab iff the sample has one. Semicolon iff no tab but a semicolon. Comma iff neither. |
| Kepler.DelimiterIgnoresTail | tools/convert_to_kepler.py:43 | Text after the first 2048 characters does not change the guess. |
| Kepler.ParseLatLng | tools/convert_to_kepler.py:25-35 | Blank text gives None. Any number of commas other than one gives None. |
| Kepler.ParseLatLngSwaps | tools/convert_to_kepler.py:32-33 | With exactly one comma, both sides are stripped and parsed, and the result is `[lng, lat]`, or None when either side fails. |
| Kepler.Swap | tools/convert_to_kepler.py:19 | Same length, and each `(lat, lon)` becomes `[lon, lat]` at the same position. |
| Kepler.DecodeCoordinates | tools/convert_to_kepler.py:10-22 | Blank text gives None. Otherwise None exactly when decoding fails. A result is the decoder's points, each swapped to `[lon, lat]`, in the same order and number. |
| Kepler.Entry | tools/convert_to_kepler.py:95-105 | Date and distance are copied. `has_route` is "yes" exactly when there is a LineString geometry and "no" exactly when there is none. `num_points` is the positive point count of a route, and 0 without one. Each start or end lng cell is blank exactly when its lat cell is. |
| Kepler.EntryFields | tools/convert_to_kepler.py:80-105 | Date and distance are copied. `has_route` is "yes" iff the route decoded to a point, else "no". `num_points` is the point count. Geometry is blank iff `has_route` is "no", else it carries the swapped coordinates. Start and end cells are blank iff their parse failed, and otherwise hold the parsed point's lng and lat. |
| Kepler.Kept | tools/convert_to_kepler.py:69-78 | No kept row is skipped, and there are never more kept rows than input rows. |
| Kepler.KeptConcat | tools/convert_to_kepler.py:69-107 | Keeping rows commutes with concatenation: outputs follow input order. |
| Kepler.ConvertStep | tools/convert_to_kepler.py:69-107 | Each further readable row adds its own entry at the end, unless it is skipped. |
| Kepler.ConvertRows | tools/convert_to_kepler.py:62-107 | Succeeds iff every row's fields can be stripped. Then the output is one `run_entry` per non-skipped row, in input order. Otherwise the failure names the first short row. |
| Kepler.RouteCountsAddUp | tools/convert_to_kepler.py:131-133 | The with-route and without-route counts add up to the runs processed. |

## Left out

- HTTP calls, `JSON.parse` and URLs are not modelled. The token endpoint is a function from request to status, body and parsed fields. The gear lookup is a function from id to `Option` of name and distance. The streams payload is a parameter.
- Spreadsheet plumbing, menus, dialogs, `testToken` and `logToSheet_` are not modelled. They are presentation and logging.
- The row assembly of the import (`apps-script/src/Code.js:494-525`) and the splits rows it appends (`apps-script/src/Code.js:303-313`) are not modelled. They fill the StravaData and Splits sheets, which the merges read. The merges therefore take the staging sheets' rows as arbitrary input, and nothing is proved about what those rows hold.
- The clock is the parameter `now`. `Math.floor(Date.now() / 1000)` is not modelled.
- Float arithmetic is exact: distances and paces are `real`. Heart rates, times and sheet numbers are integers. Float rounding of `/ 1000.0`, `* 3.6` and the pace division is not captured. Neither is a tie in `Math.round` that a float would produce off the exact half.
- HeartRateZones.Classify requires `maxHR > 0`. With the shipped `MAX_HR = 000` the ratio is Infinity and every positive sample lands in Z5. That configuration hazard is excluded rather than modelled.
- HeartRateZones.ComputeTimeInZones takes integer samples. A null or NaN heart-rate sample (skipped by `!hr`) and a non-numeric time entry are not modelled.
- Cells of the sheets are text, integers or booleans. Fractional numbers and dates are not modelled in any column, and neither is their `String()` form. The import writes both: a `Date` start time (`apps-script/src/Code.js:496`) and fractional values such as the distance in km (`apps-script/src/Code.js:501`).
- Text.Trim and the other trimming members strip the six ASCII whitespace characters only. JavaScript `trim` also strips Unicode spaces and line terminators. Python `strip` also strips Unicode spaces and the ASCII separators `\x1c`-`\x1f`, which JavaScript `trim` keeps.
- Kepler: the CSV reading and writing, `json.dumps` of the geometry (kept as the coordinate list), the polyline decoding itself, `float()`, and the printed lines are not modelled.
- Kepler.ConvertRows models a short CSV row, whose missing values `strip()` cannot handle, as a failure of the whole conversion. Python raises and writes no file.
- The location-privacy flag is not modelled. With it off, the start, end and polyline columns are empty, which the Kepler model handles as blank input.

## Findings

| source | as written | input that shows it | evidently intended | confidence | as-written member | corrected member |
|---|---|---|---|---|---|---|
| apps-script/src/Code.js:372-384 | An empty Data sheet gets the first new row written into row 1, with no header, while existing ids are read from row 2 on. | A StravaData sheet with header `id` and one row with id 1, synced twice into an empty Data sheet: the first run writes `[1]` in row 1; the second run reads no ids and appends `[1]` again. | Seed the header into an empty destination, as the splits sync does at Code.js:329-332, so that a repeated sync appends nothing. | not executed | SheetSync.DataSyncAsWrittenRepeatsFirstRow, SheetSync.SyncStravaToDataAsWritten | SheetSync.SyncStravaToData, SheetSync.MergeIdempotent |
