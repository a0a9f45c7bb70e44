# Fleet activity dashboard — a verified model

This project models the core of a fleet activity dashboard, a Next.js application that
shows which delivery vehicles ran on each day of a month.

- **The data route** (`GET /api/vehicles`) does three things:
  - it reads two spreadsheets, a vehicle registry (`Base-Veiculos.xlsx`) and a route log
    (`Base Rotas.xlsx`), and normalises their cells;
  - for each registered plate and each day of the selected month, it gives the status
    "rodou" (ran) when a route is logged for that plate on that day, and otherwise a
    pseudo-random status;
  - when the registry yields no vehicle, it answers with built-in demonstration vehicles.
- **The page** does three things:
  - it loads the vehicles for a month, falling back to six locally generated mock
    vehicles when the request fails;
  - it filters them by seven fields and paginates the result;
  - it lists the distinct values of each field for the filter pickers.
- **The grid** builds one column per day of the month, with weekday labels and weekend
  flags, and computes per-vehicle totals.
- **The pagination bar** chooses which page buttons and ellipses to show.
- **The filter panel** updates, clears and counts the active filters.
- **The export button** turns the filtered vehicles into spreadsheet rows with one
  "Rodou" / "Não rodou" cell per day, a worked-days total and a percentage, and names the
  file after the month and the year.

The model is written in Dafny, one module per concern:

- **Supporting modules:**
  - `Wrappers`: the `Option` type.
  - `Seqs`: filter, map, find and subsequence.
  - `JsText`: JavaScript's `trim`, `toLowerCase`, `padStart`, `String(n)` and `parseInt`.
  - `StringOrder`: the default `sort()` order and sorted sets.
  - `Calendar`: the proleptic Gregorian calendar with JavaScript's `Date` month/year
    normalisation, `getDay` and `toISOString`.
  - `Lcg`: the generator `(s * 9301 + 49297) % 233280`.
  - `Cells`: spreadsheet cell values, the `||` operator, `String(value)` and `Number(value)`
    on decimals.
  - `Fleet`: the shared records.
  - `DayMaps`: records keyed "01".."31".
  - `Months`: the month names.
- **Modules for the data route:**
  - `Normalize`: `normalizeString`, `normalizeNumber` and `normalizeDate`.
  - `Loaders`: the two sheet readers.
  - `DailyStatus`: `generateDailyStatusFromRoutes`.
  - `VehiclesApi`: `processExcelData`, the fallback data and `GET`.
- **Modules for the UI:**
  - `Dashboard`: the page (mock data, filtering, pagination, option lists) and a
    `DashboardPage` class holding the page's state.
  - `TrackingTable`, `PaginationControls`, `FilterControls` and `ExportButton`: the four
    components.

Where the source works step by step, so does the model:

- the status generators, the day-column builder, the visible-pages builder and the
  export are methods with loops;
- the page's seeded generator and the page's state are classes whose methods update
  their fields.

Each of these methods is proved equal to a specification function. Properties are then
proved about those functions.

Some definitions only name a computation: `Seqs.Map`, `PaginationControls.Range`,
`ExportButton.DayHeaders`, `ExportButton.DayCells`, `ExportButton.WorkedKeys`,
`TrackingTable.RanKeys`, `Dashboard.RouteDraws` and `DayMaps.DayMap`. They have no row of
their own in the table below; the lemmas that use them carry the rows.

## Code versus specification

Where the repository's written description of the system and its code disagree, the
model follows the code:

- **Performance.** A route's `Performance` cell that is non-numeric text becomes `0`. The
  code computes `Number(value)` and maps `NaN` to `0`. Only a falsy cell (missing, empty,
  `0` or `false`) becomes `1`, through `|| 1`. The description says "defaults to 1 when
  missing or unparseable". See `Loaders.PerformanceDefault`.
- **Zero performance.** The description defaults only blank or non-numeric cells to 1.
  The code also turns a recorded performance of `0` (or a `false` cell) into 1, that is
  100%, because `|| 1` replaces every falsy value. See `Loaders.PerformanceZeroIsOne`.
- **Tipo de Frota.** A whitespace-only `Tipo de Frota` cell becomes `""`, not
  `"Própria"`. The `|| 'Própria'` default applies only to falsy cells, and
  `normalizeString` then trims the text to nothing. See `Loaders.TipoFrotaBlank`.

The export computes a `headers` array but never passes it to the sheet: `json_to_sheet`
takes its columns from the keys of the row objects. `ExportButton.RowColumns` proves that
every row's keys, in order, are exactly that header list, so the columns come out the
same either way.

The filter panel treats a plate filter equal to `"all"` as active, but its badge counts
it as inactive. `FilterControls.CountVersusActive` states the exact relation between the
two tests, and `FilterControls.PlateAllShowsZero` exhibits the case: the "clear" button
shows while the badge reads 0.

## Model

| member | source | states |
|---|---|---|
| JsText.TrimIsSlice | app/api/vehicles/route.ts:252 | `trim()` removes a run of whitespace from each end and nothing else: the result is a slice whose surroundings are all whitespace and whose own ends are not |
| JsText.TrimIdempotent | app/api/vehicles/route.ts:252-253 | trimming twice is trimming once |
| JsText.TrimEmptyIffAllSpace | app/api/vehicles/route.ts:252-253 | a text trims to "" exactly when every character is whitespace |
| JsText.ToLower | app/api/vehicles/route.ts:172 | `toLowerCase()` keeps the length and lowers exactly the letters A-Z |
| JsText.PadStart | app/api/vehicles/route.ts:182 | `padStart(n, c)` ends with the original text, is at least `n` long, and is filled with `c` in front |
| JsText.NatToString | app/api/vehicles/route.ts:182 | `toString()` of a non-negative integer is a non-empty run of digits without a leading zero |
| JsText.Pad2Injective | app/api/vehicles/route.ts:182 | distinct days 0..99 get distinct two-digit keys |
| JsText.ParseIntToString | app/api/vehicles/route.ts:359-367 | `parseInt(String(n), 10)` gives `n` back for every integer |
| JsText.ParseIntPad2 | components/export-button.tsx:66 | `parseInt` of a two-digit day key gives the day back |
| JsText.DigitsOfNatToString | app/api/vehicles/route.ts:182 | the digits of `toString()` read back as the number |
| Seqs.Filter | app/page.tsx:231 | `filter` keeps exactly the elements that pass, in order (a subsequence), and keeps everything when all pass |
| Seqs.MapPrefixNext | components/export-button.tsx:43 | mapping one more element appends its image |
| Seqs.FirstIndex | app/api/vehicles/route.ts:187 | the first index satisfying the test, or none exactly when no element does |
| Seqs.Find | app/api/vehicles/route.ts:187 | `find` returns the first element passing the test, and nothing exactly when none passes |
| Seqs.FilterCountsPositions | components/filter-controls.tsx:118 | `filter(p).length` is the number of positions whose element passes, repeated values included |
| Seqs.FindAfterFilter | app/api/vehicles/route.ts:171-203 | finding in a filtered list finds the first element passing both tests, and nothing exactly when no element passes both |
| StringOrder.LessIrreflexive | app/page.tsx:284 | the sort order never puts a text before itself |
| StringOrder.LessTransitive | app/page.tsx:284 | the sort order is transitive |
| StringOrder.LessTotal | app/page.tsx:284 | any two distinct texts are ordered one way or the other |
| StringOrder.Insert | app/page.tsx:284 | inserting into a strictly sorted list keeps it strictly sorted and adds exactly the new value |
| StringOrder.SortedDistinct | app/page.tsx:284 | `[...new Set(values)].sort()` is strictly sorted and holds exactly the values |
| StringOrder.SortedUnique | app/page.tsx:284 | two strictly sorted lists with the same elements are equal, so the option list is determined by the set of values |
| Calendar.DaysIn | app/api/vehicles/route.ts:178 | a month has 28 to 31 days; February has 29 exactly in leap years |
| Calendar.DaysBeforeNextYear | app/api/vehicles/route.ts:178 | the day count before year y+1 is that before y plus the length of y |
| Calendar.CivilFromDays | app/api/vehicles/route.ts:276 | the calendar date of a day number is a valid date with that day number |
| Calendar.DayNumberInjective | app/api/vehicles/route.ts:276 | distinct valid dates have distinct day numbers |
| Calendar.CivilFromDayNumber | app/api/vehicles/route.ts:276 | converting a valid date to its day number and back returns it |
| Calendar.SuccessorDay | app/api/vehicles/route.ts:275-276 | the day after day number n is the calendar successor of n's date |
| Calendar.NextDayNumber | app/api/vehicles/route.ts:275-276 | the successor of a valid date is valid and one day number later |
| Calendar.Weekday | app/api/vehicles/route.ts:228 | `getDay()` is in 0..6 |
| Calendar.WeekdayAnchors | app/api/vehicles/route.ts:228 | `getDay()` numbering fixed by known dates: 1970-01-01 a Thursday, 2000-01-01 a Saturday, 2025-07-01 a Tuesday |
| Calendar.WeekdayNext | app/api/vehicles/route.ts:228 | the weekday advances by one each day, modulo 7 |
| Calendar.JsDaysInMonthIsGregorian | app/api/vehicles/route.ts:178 | `new Date(y, m + 1, 0).getDate()` is the Gregorian length of the normalised month, 28 to 31 (the `Date` range limit is not modelled, see "Left out") |
| Calendar.MakeDayPlain | app/api/vehicles/route.ts:227 | for years from 100 and months 0..11, `new Date(y, m, d)` is the plain calendar day |
| Lcg.JsRem | app/api/vehicles/route.ts:223 | JavaScript's `%` by 233280: the remainder takes the dividend's sign and differs from it by a multiple of the modulus |
| Lcg.Step | app/api/vehicles/route.ts:223 | from a non-negative seed, the step stays in 0..233279 |
| Lcg.IterateShift | app/page.tsx:127-130 | stepping once and then k times is stepping k + 1 times |
| Lcg.IterateRange | app/page.tsx:127-130 | from a non-negative seed, every later state is non-negative and below the modulus |
| Lcg.ThresholdsExact | app/api/vehicles/route.ts:231-236 | each integer threshold decides `v / 233280 < t` exactly like the decimal literal |
| Cells.CanonValue | app/api/vehicles/route.ts:252 | dropping trailing fraction zeros keeps a decimal's value |
| Cells.NumberTextRoundTrip | app/api/vehicles/route.ts:258 | `Number(String(d))` is the finite number d, for every decimal cell value |
| Cells.NumberTextStart | app/api/vehicles/route.ts:252 | `String(d)` of a number starts with a digit or a minus sign |
| Normalize.NormalizeString | app/api/vehicles/route.ts:250-254 | `normalizeString` always returns trimmed text |
| Normalize.NormalizeStr | app/api/vehicles/route.ts:250-254 | on a text cell, `normalizeString` is `trim` |
| Normalize.NormalizeStringIdempotent | app/api/vehicles/route.ts:250-254 | normalising a normalised text changes nothing |
| Normalize.NormalizeStringEmpty | app/api/vehicles/route.ts:250-254 | the result is "" exactly for undefined, null and whitespace-only text; numbers and booleans never become "" |
| Normalize.NormalizeNumber | app/api/vehicles/route.ts:256-260 | `normalizeNumber` is never NaN: blank cells give 0, numeric ones give `Number(value)` |
| Normalize.EpochDays | app/api/vehicles/route.ts:273 | the day numbers of 1970-01-01 and 1900-01-01 and the UTC epoch offset used for serial dates |
| Normalize.NormalizeDate | app/api/vehicles/route.ts:262-285 | text is kept as is, undefined/null/boolean give "", a serial number gives the ISO date of its day, and an out-of-range serial (RangeError) gives none |
| Normalize.SerialDayOfWholeNumber | app/api/vehicles/route.ts:271-276 | with a UTC epoch, whole serial n is day 1900-01-01 + n - 2, shifted by the zone offset |
| Normalize.SerialDayNext | app/api/vehicles/route.ts:271-276 | consecutive whole serials land on consecutive days |
| Normalize.NormalizeDateNext | app/api/vehicles/route.ts:271-276 | the ISO date of serial n + 1 is the calendar successor of that of serial n |
| Loaders.ReadVehiclesFile | app/api/vehicles/route.ts:46-83 | a missing file gives []; otherwise the result is the subsequence of mapped rows that have a non-blank plate, and every such row is kept |
| Loaders.VehicleRowKept | app/api/vehicles/route.ts:70-78 | a registry row is kept exactly when its Placa cell is truthy and not whitespace-only text |
| Loaders.TipoFrotaDefault | app/api/vehicles/route.ts:77 | a falsy Tipo de Frota cell gives "Própria" |
| Loaders.TipoFrotaBlank | app/api/vehicles/route.ts:77 | a non-empty whitespace-only Tipo de Frota cell gives "", not "Própria" |
| Loaders.FalsyCellDefault | app/api/vehicles/route.ts:70-77 | a falsy cell gives the column's default |
| Loaders.SpaceCellEmpty | app/api/vehicles/route.ts:70-77 | a non-empty whitespace-only cell gives "" whatever the default |
| Loaders.ReadRoutesFile | app/api/vehicles/route.ts:85-123 | a missing file or an out-of-range date serial (caught error) gives []; otherwise the result is the subsequence of mapped rows with a plate and a date, and every such row is kept |
| Loaders.MissingDateDropped | app/api/vehicles/route.ts:109-118 | a route row with a falsy Data Rota cell is dropped |
| Loaders.DateTextKept | app/api/vehicles/route.ts:109 | a non-empty date text is carried over unchanged |
| Loaders.PerformanceDefault | app/api/vehicles/route.ts:116 | performance is never NaN; a falsy cell gives 1 and non-numeric text gives 0 |
| Loaders.PerformanceZeroIsOne | app/api/vehicles/route.ts:116 | a numeric `0` cell, at any scale, or a `false` cell reports performance 1 |
| DailyStatus.DatePart | app/api/vehicles/route.ts:193 | `split('T')[0]` is the longest prefix without a 'T' |
| DailyStatus.PseudoStatus | app/api/vehicles/route.ts:221-237 | an unmatched day is never "rodou"; on weekends it is "folga" iff random < 0.7; on weekdays the 0.1 / 0.15 / 0.18 ladder; a NaN seed (empty plate) gives "sem-rota" |
| DailyStatus.DailyStatusOf | app/api/vehicles/route.ts:167-247 | the record for a plate has one key "01".."dd" for each day of `new Date(year, month + 1, 0).getDate()` |
| DailyStatus.GenerateDailyStatusFromRoutes | app/api/vehicles/route.ts:167-247 | the loop builds exactly the day record of the specification function |
| DailyStatus.StatusOfDay | app/api/vehicles/route.ts:186-243 | one loop iteration gives the entry the specification assigns to that day |
| DailyStatus.UnmatchedStatus | app/api/vehicles/route.ts:222-237 | the imperative status ladder agrees with the pseudo-status function |
| DailyStatus.DailyStatusKeys | app/api/vehicles/route.ts:178-182 | the record has one key "01".."dd" per day of the normalised month (within the `Date` range, see "Left out") |
| DailyStatus.DailyStatusKeysPlain | app/api/vehicles/route.ts:178-182 | for months 0..11 and years from 100, the keys are those of the month's Gregorian length (within the `Date` range, see "Left out") |
| DailyStatus.DayRodouIffRoute | app/api/vehicles/route.ts:187-243 | a day is "rodou" exactly when some route of the plate (case- and space-insensitive) is dated that day; its route info is a snapshot of the first such route; otherwise the entry is the pseudo-status with no route info |
| DailyStatus.EntryRodouIffRoute | app/api/vehicles/route.ts:187-243 | the same facts for one day's entry |
| DailyStatus.RouteInfoIffRodou | app/api/vehicles/route.ts:205-242 | every day has route info exactly when it is "rodou" |
| DailyStatus.NoRoutesNoRodou | app/api/vehicles/route.ts:171-243 | without routes, no day is "rodou" |
| VehiclesApi.VehicleOf | app/api/vehicles/route.ts:148-159 | the vehicle carries the id, the registry fields and the day record it was built from |
| VehiclesApi.Assemble | app/api/vehicles/route.ts:145-160 | one vehicle per registry row, numbered 1.., with the row's fields and the status record of its plate |
| VehiclesApi.ProcessExcelData | app/api/vehicles/route.ts:125-165 | one vehicle per kept registry row, numbered 1.. in order |
| VehiclesApi.ProcessedVehicles | app/api/vehicles/route.ts:125-165 | `processExcelData` gives one vehicle per kept registry row, with ids 1.., non-blank plates and the day record computed from the kept routes |
| VehiclesApi.FallbackStatus | app/api/vehicles/route.ts:324-328 | the fallback ladder: "rodou" below 0.55, "folga" below 0.65, "manutencao" below 0.75, "falta" below 0.85, else "sem-rota" |
| VehiclesApi.FallbackStatusOf | app/api/vehicles/route.ts:316-343 | the fallback record has the 31 keys "01".."31", whatever the selected month |
| VehiclesApi.GenerateFallbackStatus | app/api/vehicles/route.ts:316-343 | the loop builds exactly the fallback record |
| VehiclesApi.FallbackDay | app/api/vehicles/route.ts:320-340 | one loop iteration gives the specified day entry |
| VehiclesApi.FallbackStatusShape | app/api/vehicles/route.ts:319-341 | the fallback record has keys "01".."31" and route info exactly on the days that ran |
| VehiclesApi.FallbackRouteIdDigits | app/api/vehicles/route.ts:333 | the fallback route id is "R" and three digits that read back as `vehicleId * 13 + day` |
| VehiclesApi.FallbackVehicles | app/api/vehicles/route.ts:289-314 | two demonstration vehicles, numbered 1 and 2, each with the fallback record generated for its own id |
| VehiclesApi.ExcelMessageCount | app/api/vehicles/route.ts:381 | the Excel message starts with the vehicle count: `parseInt` of the message gives the count back |
| VehiclesApi.Respond | app/api/vehicles/route.ts:375-391 | the answer succeeds; it is the Excel answer with its count message exactly when the Excel list is non-empty, and otherwise the fallback vehicles with the fallback message |
| VehiclesApi.Get | app/api/vehicles/route.ts:345-401 | the response always succeeds; it carries the Excel vehicles and the count message exactly when there are any, and otherwise the fallback vehicles and message |
| VehiclesApi.ReadParam | app/api/vehicles/route.ts:359-367 | the imperative parameter reading agrees with its specification |
| VehiclesApi.ParamRoundTrip | app/api/vehicles/route.ts:359-367 | a query parameter written as an integer is read back as that integer; a missing one gives the default |
| Dashboard.SeededRandom.constructor | app/page.tsx:124-125 | the generator starts at the given seed |
| Dashboard.SeededRandom.Next | app/page.tsx:127-130 | a call advances the state by one step and returns state / 233280, which is in [0, 1) from a non-negative state |
| Dashboard.MockDailyStatusOf | app/page.tsx:115-170 | the mock record has the 31 keys "01".."31", whatever the selected month |
| Dashboard.GenerateMockDailyStatus | app/page.tsx:115-170 | the generator method builds exactly the specified mock record |
| Dashboard.FillMockDays | app/page.tsx:132-167 | the day loop fills days 1..31 with the specified entries |
| Dashboard.MockDayEntry | app/page.tsx:133-166 | one iteration gives the specified entry and leaves the generator where the next day starts |
| Dashboard.StateBeforeNext | app/page.tsx:132-134 | the state before day d + 1 is the state left after day d |
| Dashboard.MockDayStep | app/page.tsx:134-166 | one day's draws, done imperatively, agree with the pure day function |
| Dashboard.RouteFieldDraws | app/page.tsx:144-151 | the route fields take six steps and record the six states |
| Dashboard.MockShape | app/page.tsx:132-167 | the mock record has keys "01".."31" and route info exactly on the days that ran |
| Dashboard.MockDayShape | app/page.tsx:139-161 | a mock day has route info exactly when it ran |
| Dashboard.MockStatusLadder | app/page.tsx:140-161 | the mock ladder: "rodou" below 0.75, "manutencao" below 0.85, "folga" below 0.90, "falta" below 0.95, else "sem-rota" |
| Dashboard.MockStateAdvance | app/page.tsx:134-152 | a day that ran consumes seven draws, any other day one |
| Dashboard.MockStatesInRange | app/page.tsx:124-130 | every generator state is non-negative, every draw lies in [0, 1), and every route-field state is below the modulus |
| Dashboard.MockVehicles | app/page.tsx:39-112 | six vehicles numbered 1..6, each with its registry record and the mock record of its own id |
| Dashboard.FilteredVehicles | app/page.tsx:230-242 | the filtered list is a subsequence holding exactly the vehicles that match every filter |
| Dashboard.UnrestrictedKeepsAll | app/page.tsx:233-239 | with every filter at "all" or "" (the default filters) nothing is removed |
| Dashboard.KeptSatisfyFilters | app/page.tsx:233-239 | a kept vehicle equals every set equality filter and contains the plate filter, case-insensitively |
| Dashboard.CeilDiv | app/page.tsx:247 | `Math.ceil(n / d)` is the least page count that covers n items |
| Dashboard.Slice | app/page.tsx:250 | `slice` with clamped bounds |
| Dashboard.PaginationOf | app/page.tsx:245-263 | the pagination record: item and page counts, at most a page of items, next and previous flags |
| Dashboard.PageContents | app/page.tsx:248-250 | a page within the page count is non-empty and is the slice from `(p - 1) * size` |
| Dashboard.PageFull | app/page.tsx:248-250 | every page before the last is full |
| Dashboard.PagePastEnd | app/page.tsx:248-250 | a page past the last is empty |
| Dashboard.PagesUpToPrefix | app/page.tsx:248-250 | the first k pages together are the prefix of length `min(k * size, n)` |
| Dashboard.PagesReassemble | app/page.tsx:245-250 | all the pages together are the whole filtered list, in order |
| Dashboard.ShowingMatchesPage | app/page.tsx:248-250 | the "showing a-b" range of the bar counts exactly the items on the page |
| Dashboard.UniqueValuesOf | app/page.tsx:282-291 | each of the six option lists is strictly sorted and holds exactly the non-blank values of its field |
| Dashboard.FieldOptions | app/page.tsx:282-291 | each option list is strictly sorted and holds exactly the non-blank values of its field |
| Dashboard.DashboardPage.constructor | app/page.tsx:173-191 | the page starts at July 2025, loading, on page 1 of 10 items, with the default filters |
| Dashboard.DashboardPage.HandlePageChange | app/page.tsx:271-275 | changing the page sets it and nothing else |
| Dashboard.DashboardPage.HandleItemsPerPageChange | app/page.tsx:277-280 | changing the page size sets it and returns to page 1 |
| Dashboard.DashboardPage.ChangeFilters | app/page.tsx:265-268 | new filters return the page to page 1 |
| Dashboard.DashboardPage.ChangePeriod | app/page.tsx:194-199 | a new month or year starts a load and clears the error |
| Dashboard.DashboardPage.LoadSucceeded | app/page.tsx:208-222 | a response replaces the vehicles, ends the load, and shows the message when the data are the fallback |
| Dashboard.DashboardPage.LoadFailed | app/page.tsx:216-222 | a failed load shows the six mock vehicles and the error text |
| PaginationControls.GetVisiblePages | components/pagination-controls.tsx:37-70 | the imperative builder returns the specified button list |
| PaginationControls.PushWindow | components/pagination-controls.tsx:55-57 | the loop appends exactly the window |
| PaginationControls.Layout | components/pagination-controls.tsx:41-67 | with 3 or more pages: first page, optional ellipsis, the window `max(2, c-2)`..`min(t-1, c+2)`, optional ellipsis, last page |
| PaginationControls.VisiblePagesWellSpaced | components/pagination-controls.tsx:37-70 | when 1 <= currentPage <= totalPages: adjacent buttons are consecutive pages, and an ellipsis stands only between pages with a gap |
| PaginationControls.LongListWellSpaced | components/pagination-controls.tsx:41-67 | when 1 <= currentPage <= totalPages and there are three or more pages, the button list is well spaced |
| PaginationControls.StalePageButtons | components/pagination-controls.tsx:41-67 | with the current page past the last (page 5 of 2, or of 1) the list is `[1, …, 2]` or `[1, …]`, which is not well spaced |
| PaginationControls.SpacedAt | components/pagination-controls.tsx:47-62 | the spacing facts at one position of the list |
| PaginationControls.WellSpacedIncreasing | components/pagination-controls.tsx:37-70 | in a well-spaced list the page numbers strictly increase |
| PaginationControls.PageNumbersOrdered | components/pagination-controls.tsx:37-70 | the page buttons are strictly increasing and all lie in 1..totalPages |
| PaginationControls.EdgeBounds | components/pagination-controls.tsx:41-67 | the first button is page 1, the last is the last page, and no pages show no buttons |
| PaginationControls.WindowShown | components/pagination-controls.tsx:52-57 | every page within two of the current one is shown |
| PaginationControls.LeadingEllipsis | components/pagination-controls.tsx:47-49 | a leading ellipsis shows exactly when the current page is past 4 |
| PaginationControls.ShowingStart | components/pagination-controls.tsx:73 | "showing from" is `startIndex + 1`, clamped to the item count |
| PaginationControls.ShowingEnd | components/pagination-controls.tsx:74 | "showing to" is `endIndex`, clamped to the item count |
| FilterControls.HandleFilterChange | components/filter-controls.tsx:45-47 | updating one filter sets that key and keeps every other key |
| FilterControls.ClearFilters | components/filter-controls.tsx:49-59 | clearing sets the plate to "" and the rest to "all", and leaves no active filter |
| FilterControls.Values | components/filter-controls.tsx:118 | `Object.values(filters)`, in key order |
| FilterControls.ActiveCount | components/filter-controls.tsx:118 | the badge count is the number of filter positions whose value is neither "all" nor "" (equal values count once each); it is at most 7, and 0 exactly when no value counts |
| FilterControls.ActiveIff | components/filter-controls.tsx:61-66 | filters are active exactly when the plate is non-empty or another field is neither "all" nor "" |
| FilterControls.CountVersusActive | components/filter-controls.tsx:61-66 | active exactly when the badge count is positive or the plate is "all" |
| FilterControls.PlateAllShowsZero | components/filter-controls.tsx:116-118 | a plate filter of "all" makes the filters active while the badge counts 0 |
| Months.MonthName | app/page.tsx:293-309 | a name exists exactly for months 0..11 |
| Months.LowerMonthName | components/export-button.tsx:82-86 | a lower-case name exists exactly for months 0..11 |
| Months.LowerMonthNameAgrees | components/export-button.tsx:82-86 | the file name's month is the title's month in lower case |
| DayMaps.DayMapAt | app/api/vehicles/route.ts:181-182 | the key of each day 1..n holds that day's value: no later day overwrites it |
| DayMaps.DayMapNext | app/api/vehicles/route.ts:181-182 | filling day d into the record of days 1..d-1 gives the record of days 1..d |
| DayMaps.DayOfKeyInverse | app/api/vehicles/route.ts:182 | reading a two-digit key gives its day back |
| DayMaps.DayKeysCard | app/api/vehicles/route.ts:181-182 | n days give n distinct keys |
| TrackingTable.DayColumnFlags | components/vehicle-tracking-table.tsx:36-48 | the weekend flag is Saturday or Sunday, the Sunday flag is Sunday, the label is the weekday's, the key and date label are the padded day and "dd/mm" |
| TrackingTable.DaysOfMonthOf | components/vehicle-tracking-table.tsx:32-35 | the column list has as many columns as `new Date(year, month + 1, 0).getDate()` days |
| TrackingTable.DaysOfMonthAt | components/vehicle-tracking-table.tsx:35-49 | the column at index i is the column of day i + 1, so the columns run over the days in order |
| TrackingTable.PushColumns | components/vehicle-tracking-table.tsx:35-50 | the push loop leaves exactly the columns of days 1..n, in order |
| TrackingTable.DaysOfMonth | components/vehicle-tracking-table.tsx:27-52 | the column loop builds exactly the specified columns |
| TrackingTable.DayColumnKeys | components/vehicle-tracking-table.tsx:38-43 | the column keys read back as 1..n and are exactly the keys of an n-day record |
| TrackingTable.WeekendFollowsCalendar | components/vehicle-tracking-table.tsx:46 | the grid's weekend flag agrees with the calendar and with the server's weekend test |
| TrackingTable.DateLabel | components/vehicle-tracking-table.tsx:38-40 | the date label is "dd/mm" and reads back as the day and the month |
| TrackingTable.DayOrDefault | components/vehicle-tracking-table.tsx:177 | a missing day shows as "sem-rota" without route info |
| TrackingTable.ColumnsFoundInServerData | components/vehicle-tracking-table.tsx:177 | for data from the route, every column finds its day, so the default is never used |
| TrackingTable.RoundHalfUp | components/vehicle-tracking-table.tsx:57 | `Math.round(num / den)` rounds half up |
| TrackingTable.PercentBounds | components/vehicle-tracking-table.tsx:57 | a share of a whole rounds to a percentage in 0..100 |
| TrackingTable.CalculateStats | components/vehicle-tracking-table.tsx:54-60 | worked days count the "rodou" days and never exceed the record's days; the percentage is the worked share of ALL the record's keys, times 100, rounded half up; it lies in 0..100 and is 0 for an empty record |
| TrackingTable.StatusLabel | components/vehicle-tracking-table.tsx:279-285 | the tooltip says "Veículo rodou" exactly for "rodou", and "Não rodou" for every other status |
| ExportButton.Keys | components/export-button.tsx:44-71 | the column names of a row, in insertion order |
| ExportButton.Get | components/export-button.tsx:58 | a row has a value under a key exactly when the key is one of its columns |
| ExportButton.Put | components/export-button.tsx:60 | assigning an existing key keeps the columns; a new key is appended last |
| ExportButton.PutThenGet | components/export-button.tsx:60 | after assigning, the key reads the new value and every other key is unchanged |
| ExportButton.DaysInMonthOf | components/export-button.tsx:32 | the month has 28 to 31 days |
| ExportButton.Headers | components/export-button.tsx:29-40 | the header loop builds the eight fixed names, the day headers and the two totals |
| ExportButton.DayHeadersNext | components/export-button.tsx:36-38 | each loop pass appends one day header |
| ExportButton.HeadersDistinct | components/export-button.tsx:29-40 | no header repeats |
| ExportButton.DayHeaderFresh | components/export-button.tsx:60 | a day's column is new when it is added |
| ExportButton.TotalsFresh | components/export-button.tsx:70-71 | the two total columns are new when they are added |
| ExportButton.LabelsAgree | components/export-button.tsx:104-107 | a sheet cell reads "Rodou" exactly when the grid's tooltip says the vehicle ran, and "Não rodou" otherwise |
| ExportButton.FixedCells | components/export-button.tsx:44-53 | the row starts with the eight fixed columns |
| ExportButton.DayCellsKeys | components/export-button.tsx:36-38 | the day cells' names are the day headers, in the same order |
| ExportButton.Percentage | components/export-button.tsx:68 | the percentage rounds half up, lies in 0..100 for a share of the month, and is 0 for an empty month |
| ExportButton.BuildRow | components/export-button.tsx:43-74 | the row-building code produces exactly the specified row |
| ExportButton.PutDay | components/export-button.tsx:56-61 | one day-loop pass appends that day's cell |
| ExportButton.TotalsOfRow | components/export-button.tsx:64-71 | assigning the two totals to the fixed and day cells completes the specified row |
| ExportButton.TotalsAppended | components/export-button.tsx:70-71 | the two totals are appended, in order |
| ExportButton.RowColumns | components/export-button.tsx:29-74 | every row's columns, in order, are the header list |
| ExportButton.TotalCountsRodouCells | components/export-button.tsx:56-67 | for a record keyed by days, "Total Dias" equals the number of "Rodou" cells in the row |
| ExportButton.TotalsBounded | components/export-button.tsx:64-68 | worked days never exceed the month's days, and the percentage lies in 0..100 |
| ExportButton.FilenameNamesPeriod | components/export-button.tsx:82-87 | the file is "controle-rodagem-<lower-case month>-<year>.xlsx", with "undefined" for a month outside 0..11 |
| ExportButton.FilenameYear | components/export-button.tsx:87 | the year in the file name reads back as the selected year |
| ExportButton.ExportToXlsx | components/export-button.tsx:27-91 | the export produces the header list, one specified row per vehicle in order, and the file name |
| ExportButton.BuildRows | components/export-button.tsx:43-74 | the row loop maps each vehicle to its row |

## Left out

- **Files and output.** The model does not read files, write the workbook
  (`XLSX.read`, `sheet_to_json`, `json_to_sheet`, `writeFile`), serve HTTP or log to the
  console.
  - A spreadsheet is a parameter: `None` for a missing file, otherwise the list of its
    rows as cell maps.
  - A sheet's rows are the `Row` values that `json_to_sheet` would receive.
- **Rendering.** The model does not render the UI. It leaves out markup, tooltips,
  themes, the page title and headings, the legend, the status icons, scrolling, the
  expand/collapse state of the filter panel and the month/year pickers' own widgets.
- **Time zone.** The local time zone and `Date` objects are parameters. `normalizeDate`
  takes the epoch time of local 1900-01-01 as `epochMs`.
  - Spreadsheet cells are never `Date` objects: the reader is not asked for dates.
  - Invalid dates beyond the time-value range make the reader's catch return `[]`.
- **Floating point.**
  - `Math.round(x / n * 100)` is computed exactly (round half up on rationals). Float
    error near a .5 boundary is not modelled.
  - Serial dates are multiplied exactly.
  - Cell numbers are finite decimals and `String(number)` prints them in plain
    positional notation. Exponent notation for very large or small magnitudes is not
    modelled.
- **Fallback and mock fields.** In the route's fallback data, `milha`, `cluster`,
  `motorista`, `placaModal` and `performance` are derived from a float. Only the route
  id is modelled. The page's mock route fields are kept as the six generator states
  they are drawn from.
- **Text.** `toLowerCase` lowers ASCII letters only. `sort()` compares code points, not
  UTF-16 code units; the two orders agree on the Basic Multilingual Plane. JavaScript
  object key order is modelled as insertion order, which holds because no key is an
  array index.
- **Status values.** Statuses are an enumeration of the five values the code
  produces, so arbitrary status strings in `dailyStatus` are not modelled.
- **Integer range.** `parseInt` and the generator arithmetic are exact integers. This
  matches JavaScript below 2^53, which every seed in the code stays under.
- **GET errors.** The outer `catch` of `GET` is not modelled: nothing inside it can
  throw once the file readers catch their own errors, and its response is the fallback
  response anyway.
- Calendar.JsDaysInMonthIsGregorian: the `Date` time-value limit is not modelled. Past
  about year ±275760, `new Date(y, m + 1, 0)` is an Invalid Date and `getDate()` is
  `NaN`. The model still gives the Gregorian 28 to 31 days there.
- DailyStatus.DailyStatusKeys: for a selected year past the `Date` range (for example
  `?year=300000`), the route's day loop never runs and every record is `{}`. The model
  gives the month's Gregorian keys instead.
- DailyStatus.DailyStatusKeysPlain: the same `Date` range gap as `DailyStatusKeys`.
- Cells.StringToNumber: `Number(text)` is modelled for decimal literals (with sign,
  fraction and exponent), `Infinity` and `0x` hexadecimal only. Left out:
  - the `0b` and `0o` prefixes (`Number("0b101")` is 5 in JavaScript, `NaN` here);
  - overflow to `Infinity` (`"1e400"`) and underflow to 0. The model keeps the exact
    decimal.
- Normalize.NormalizeNumber: it inherits the `StringToNumber` gaps. A Performance cell
  holding `"0b101"` gives 0 here where the source gives 5.
- PaginationControls.VisiblePagesWellSpaced: the spacing is proved only for a current page
  within 1..totalPages. The page keeps its current page when a reload shortens the list
  (`Dashboard.DashboardPage.LoadSucceeded`), so a stale page past the last one is
  reachable. `PaginationControls.StalePageButtons` shows the buttons it then gets.
- **Loading.** The page's load is two steps, `ChangePeriod` and then `LoadSucceeded` or
  `LoadFailed`. The 30-second timeout becomes a `LoadFailed` with the timeout message.
  Two overlapping loads racing is not modelled.
