# KPI dashboard core, modelled in Dafny

This project models the deterministic logic that sits under a KPI dashboard. The dashboard is a Next.js application that reads Google Sheets, Notion and Supabase. The model covers these parts:

- **Weekly outreach payload** (`src/app/api/outreach/buildPayload.ts`). It projects the content and outreach tabs to their kept columns. It parses `DD.MM.YYYY` dates and locale numbers, and sums the rows of each calendar day. It groups the days into ISO-8601 weeks, each keeping its per-day breakdown and first and last date. Each weekly total is classified against a fixed weekly goal into the bands red, orange, yellow, green and over, and no status is given to a week after the current one. A single-entry read-through cache (`PayloadCache`) wraps the build. It has a 60-second fresh window, coalesces calls onto one in-flight fetch, and falls back to stale data under 10 minutes old.
  - Modules: `OutreachStatus`, `OutreachIngest`, `OutreachWeeks`, `OutreachPayload`, `OutreachCache`, with `Calendar`, `Numbers` and `Text` underneath.
- **Period summaries** (`src/lib/summarize.ts`, module `Summarize`). These sum named columns over the day rows inside an inclusive date window.
- **Date-ranged weekly goal sets** (`src/lib/weeklyGoals.ts`, module `WeeklyGoalRanges`). A lookup takes the first set whose `[fromWeek, toWeek?]` range holds a week id `year*100+week`.
- **Revenue sheet caches.** `src/server/services/googleSheetsCache.service.ts` is module `YearCache`, and `src/app/api/google-sheets/route.ts` is module `SheetsRoute`. Both are per-year read-through caches with the same fresh / in-flight / stale lifecycle. The route first checks that the year has a configured spreadsheet id, then maps failures to HTTP statuses.
- **Logic inside the UI components:**
  - the daily-habit ranges, statistics and state transforms (`DailyInputs`);
  - the revenue cell parser and totals (`Revenue`);
  - the KPI board's colour bands, list upsert with its unit rule, and derived monthly current (`KpiBoard`);
  - month periods and month ranges (`KpiPeriods`);
  - the KPI tab's bands, percentages, weekly and monthly roll-ups, long-term goal checkpoints and form validation (`KpiTab`);
  - the short-video pipeline roll-ups and stats cache (`ShortVideos`).
- **Notion statistics route** (`src/app/api/route.ts`, module `NotionStats`). It groups and counts pages by status and tracks the latest edit time.

Where the source mutates state, the model does too. The caches are classes with `seq`/`map` fields and explicit request / success / failure steps. The clock is a parameter. The loops (ingest, week bucketing, summaries, day ranges, statistics, month ranges, roll-ups and the page tally) are methods with loop invariants. Each is proved against a specification function whose properties are stated as lemmas. Pure code stays pure: `statusFromPct`, the date helpers, `goalKeyFromHeader`, the goal-set lookup and the list transforms are functions.

Spreadsheet numbers are `real`. A number parsed from text is the exact decimal it spells, not its IEEE-754 rounding. Dates are `(year, month, day)` triples over the proleptic Gregorian calendar.

### Behaviour worth knowing

- `parseDateDDMMYYYYdots` builds a `Date`, so an out-of-range day or month rolls over. `32.01.2025` is 1 February 2025, and a day of `0` is the last day of the previous month (`Calendar.Normalize`, `OutreachIngest.ParseDateDots`, `OutreachIngest.DayRollOverExample`).
- `buildPayload.ts` colours weeks with its own fixed `WEEKLY_GOALS` table: Connections 400, Posts 14, Comments 80, LI_Erstnachricht 180 and UW_Proposals 15. It does not use the date-ranged goal sets of `weeklyGoals.ts`, which are modelled on their own.
- A header naming a part (a `J`/`A` prefix or a `_J`, ` J`, `(J)` suffix) is never coloured: a header's goal key is only the trimmed text after its first colon, matched exactly against the goal names (`OutreachStatus.GoalKeyFromHeader`).
- Weeks are created in ascending date order, so the final sort of the week list keeps that order (`OutreachWeeks.FinalizedShape`).
- In `summarize.ts` a day row whose date string is not a date compares as the invalid date. Every comparison with it is false, so such a row counts in every window (`Summarize.InWindow`).

## Model

| member | source | states |
|---|---|---|
| YearCache.Decide | src/server/services/googleSheetsCache.service.ts:16-20 | a call is served only from the year's own entry while its age is below the fresh window; a fetch is started only when none is in flight for that year |
| YearCache.StaleFallback | src/server/services/googleSheetsCache.service.ts:27-30 | after a failure the fallback is the year's cached entry, and only that |
| YearCache.RevenueCache.Request | src/server/services/googleSheetsCache.service.ts:13-37 | the decision is `Decide` on the state; a started fetch is recorded in flight for that year with the call's time; nothing else changes |
| YearCache.RevenueCache.Succeed | src/server/services/googleSheetsCache.service.ts:24-33 | the year's entry becomes the payload stamped with the completion time and the year's in-flight mark is removed; other years are untouched |
| YearCache.RevenueCache.Fail | src/server/services/googleSheetsCache.service.ts:27-33 | the answer is the stale entry measured from the `now` of the call that started the fetch, or the error; the in-flight mark is removed and the cache is kept |
| YearCache.RevenueCache.Settle | src/server/services/googleSheetsCache.service.ts:22-34 | a settled fetch gives the payload, the stale entry in place of the error, or the error itself, and always clears the in-flight mark |
| YearCache.FreshServed | src/server/services/googleSheetsCache.service.ts:17 | an entry younger than the fresh window is returned with no fetch |
| YearCache.NoSecondFetch | src/server/services/googleSheetsCache.service.ts:19-20 | while a year's fetch is in flight, no call for that year starts another |
| YearCache.OtherYearsIndependent | src/server/services/googleSheetsCache.service.ts:11-20 | a fetch in flight for another year does not change the decision for this one |
| YearCache.NotANumberDisables | src/server/services/googleSheetsCache.service.ts:6-7 | a window read as NaN never serves and never rescues a failure |
| YearCache.ZeroWindowDisables | src/server/services/googleSheetsCache.service.ts:6 | the default window 0 serves no entry stamped at or before the call |
| YearCache.SharedFetch | src/server/services/googleSheetsCache.service.ts:19-36 | two calls on an empty cache share one fetch, whose payload is then served fresh |
| YearCache.StaleRescue | src/server/services/googleSheetsCache.service.ts:28-29 | a failed fetch with an entry inside the stale window answers that entry and keeps it |
| SheetsRoute.RequestYear | src/app/api/google-sheets/route.ts:24 | the query's year when given, otherwise the current year in digits |
| SheetsRoute.SpreadsheetId | src/app/api/google-sheets/route.ts:10-27 | only 2025 and 2026 can have an id, an empty id counts as missing, and a configured id is used |
| SheetsRoute.FetchResponse | src/app/api/google-sheets/route.ts:69-75 | the fetching call answers the payload, the stale entry, or status 502 with `Google Sheets error: <message>` |
| SheetsRoute.AwaitResponse | src/app/api/google-sheets/route.ts:37-41 | a waiting call answers the shared fetch's value; its error is not turned into a 502 |
| SheetsRoute.Route.Get | src/app/api/google-sheets/route.ts:22-67 | a year without an id is refused with 500 before the cache is read; otherwise the cache decides between serving, waiting and fetching |
| SheetsRoute.Route.FetchDone | src/app/api/google-sheets/route.ts:43-75 | the settled fetch updates the cache as `RevenueCache.Settle` does, always clears the in-flight mark, and builds the reply |
| SheetsRoute.UnconfiguredYearRefused | src/app/api/google-sheets/route.ts:26-29 | any year other than 2025 and 2026 is answered with 500 and `Missing sheet ID for year <year>` |
| SheetsRoute.EmptyIdRefused | src/app/api/google-sheets/route.ts:27 | an empty configured id is refused like a missing one |
| SheetsRoute.DefaultYear | src/app/api/google-sheets/route.ts:24 | an instance: without a `year` parameter in 2026 the year "2026" is used; `RequestYear` states the general fact |
| SheetsRoute.FailureIs502 | src/app/api/google-sheets/route.ts:61-74 | a failure without a stale entry is status 502 whose body is the sheet error |
| SheetsRoute.FirstCallFetches | src/app/api/google-sheets/route.ts:37-67 | the first call for a configured year fetches, a second one waits, and a third is then served from the cache |
| OutreachCache.Decide | src/app/api/outreach/buildPayload.ts:91-95 | a call is served from the cache only when not forced and the entry is under a minute old; a fetch is started only when none is in flight |
| OutreachCache.StaleFallback | src/app/api/outreach/buildPayload.ts:102-105 | after a failure the fallback is the cached payload, if it was under ten minutes old when the call started |
| OutreachCache.PayloadCache.Request | src/app/api/outreach/buildPayload.ts:88-111 | the decision is `Decide` on the state, and a started fetch is recorded in flight with the call's time |
| OutreachCache.PayloadCache.Succeed | src/app/api/outreach/buildPayload.ts:99-108 | the payload becomes the cache entry stamped with the completion time, and nothing is in flight afterwards |
| OutreachCache.PayloadCache.Fail | src/app/api/outreach/buildPayload.ts:102-108 | the answer is the stale payload or the error; nothing is in flight afterwards and the cache is kept |
| OutreachCache.FreshServed | src/app/api/outreach/buildPayload.ts:92 | an unforced call with a payload under a minute old gets it without a fetch |
| OutreachCache.ForcedNeverServed | src/app/api/outreach/buildPayload.ts:92 | a forced call never answers from the cache |
| OutreachCache.NoSecondFetch | src/app/api/outreach/buildPayload.ts:95 | while a fetch is in flight no call starts another, forced or not |
| OutreachCache.StaleCallFetches | src/app/api/outreach/buildPayload.ts:92-97 | without a fresh payload a call waits for the fetch in flight or starts the only one |
| OutreachCache.StaleWindow | src/app/api/outreach/buildPayload.ts:86-104 | the fallback exists exactly when a payload is cached and was under ten minutes old at the start of the call |
| OutreachCache.FreshIsWithinStale | src/app/api/outreach/buildPayload.ts:85-86 | a payload fresh when the fetch started is always available as its fallback |
| OutreachCache.TwoCallersOneFetch | src/app/api/outreach/buildPayload.ts:95-111 | two calls on an empty cache share one fetch, and its payload is then served fresh |
| OutreachCache.FailureClearsInflight | src/app/api/outreach/buildPayload.ts:104-108 | a failure with a too-old cache has no fallback, and the next call starts a new fetch |
| OutreachStatus.Rank | src/app/api/outreach/buildPayload.ts:36-45 | the bands are ordered red < orange < yellow < green < over |
| OutreachStatus.StatusFromPct | src/app/api/outreach/buildPayload.ts:36-45 | the band of a ratio; its intervals, order and examples are stated by `StatusBands`, `StatusMonotone` and `StatusExamples` |
| OutreachStatus.StatusBands | src/app/api/outreach/buildPayload.ts:38-45 | each band is exactly its interval: below 0.30, below 0.60, below 0.80, up to and including 1.00, above |
| OutreachStatus.StatusMonotone | src/app/api/outreach/buildPayload.ts:40-44 | a larger ratio never gets a lower band |
| OutreachStatus.StatusExamples | src/app/api/outreach/buildPayload.ts:40-44 | with a goal of 100, the values 0, 45, 100 and 150 are red, orange, green and over |
| OutreachStatus.GoalKeyFromHeader | src/app/api/outreach/buildPayload.ts:66-79 | a key is returned only when it is one of the goal names, and it is the header's trimmed name after the first colon |
| OutreachStatus.GoalKeysAreNotParts | src/app/api/outreach/buildPayload.ts:23-34 | no goal name matches the part prefix or part suffix patterns |
| OutreachStatus.GoalKeyCharacterization | src/app/api/outreach/buildPayload.ts:66-79 | a header has a goal key exactly when its trimmed name is a goal name, and the key is that name |
| OutreachStatus.HeaderNameAfterColon | src/app/api/outreach/buildPayload.ts:68-69 | in `tab:name` with a colon-free tab, the name after the colon is what is matched |
| OutreachStatus.GoalNamesTrimmed | src/app/api/outreach/buildPayload.ts:23-34 | goal names carry no surrounding white space |
| OutreachStatus.GoalHeadersResolve | src/app/api/outreach/buildPayload.ts:139-144 | every merged header `Content:<goal>` or `Outreach:<goal>` is coloured against that goal |
| OutreachStatus.PartHeadersHaveNoGoal | src/app/api/outreach/buildPayload.ts:72 | a header whose name starts with a J or A part marker gets no colour |
| OutreachIngest.DateOfDigits | src/app/api/outreach/buildPayload.ts:50-51 | the date built from the three digit groups is always a valid calendar date |
| OutreachIngest.ParseDateDots | src/app/api/outreach/buildPayload.ts:47-53 | a date is read exactly when the text is 1-2 digits, a point, 1-2 digits, a point and 4 digits, and it is a valid date |
| OutreachIngest.ParseDateDotsParts | src/app/api/outreach/buildPayload.ts:48-51 | `dd.mm.yyyy` with digit groups of those lengths is read as `new Date(yyyy, mm - 1, dd)` |
| OutreachIngest.ParseDateDotsRoundTrip | src/app/api/outreach/buildPayload.ts:47-53 | a date from year 1000 to 9999, written as two-digit day, two-digit month and year, reads back as itself |
| OutreachIngest.DayRollOverExample | src/app/api/outreach/buildPayload.ts:51 | "32.01.2025" is accepted and names the first of February 2025 |
| OutreachIngest.MonthRollOverExample | src/app/api/outreach/buildPayload.ts:51 | "01.13.2025" is accepted and names the first of January 2026 |
| OutreachIngest.ProjectRow | src/app/api/outreach/buildPayload.ts:129 | the projected row has one cell per kept column, the row's cell there or "" when it is missing |
| OutreachIngest.Project | src/app/api/outreach/buildPayload.ts:127-129 | every row is projected onto the kept columns; with no columns listed the rows are left as they are |
| OutreachIngest.ProjectIdempotent | src/app/api/outreach/buildPayload.ts:129 | projecting a projection onto all of its columns changes nothing |
| OutreachIngest.TabName | src/app/api/outreach/buildPayload.ts:126 | the tab name is never empty and contains no `!` |
| OutreachIngest.ProjectOne | src/app/api/outreach/buildPayload.ts:125-134 | a tab's record holds its range, the first projected row as headers (or none) and the remaining rows |
| OutreachIngest.ProjectAll | src/app/api/outreach/buildPayload.ts:123-135 | the loop leaves the map that reading the ranges in order into one record per tab gives |
| OutreachIngest.EveryTabProjected | src/app/api/outreach/buildPayload.ts:124-135 | every range read leaves a record under the tab it names |
| OutreachIngest.ProjectedLastWins | src/app/api/outreach/buildPayload.ts:130 | a tab keeps the record of the last range that names it |
| OutreachIngest.RowDatesMembers | src/app/api/outreach/buildPayload.ts:157-160 | a date is among the row dates exactly when some row's first cell names it |
| OutreachIngest.CellValues | src/app/api/outreach/buildPayload.ts:163-172 | one number per column, read from the cell after the date |
| OutreachIngest.AddRow | src/app/api/outreach/buildPayload.ts:163-172 | each column's sum grows by exactly the number read from that row's cell |
| OutreachIngest.Ingest | src/app/api/outreach/buildPayload.ts:157-173 | after the loop every dated row's day has both sum arrays, each column being its starting value plus the total of that day's rows; undated rows are skipped |
| OutreachIngest.IngestBoth | src/app/api/outreach/buildPayload.ts:154-173 | the day map holds exactly the dates of both tabs, each day's Content and Outreach columns being that day's totals in each tab |
| OutreachIngest.NoRowsNoTotal | src/app/api/outreach/buildPayload.ts:161 | a day that no row names totals 0 in every column |
| OutreachIngest.DayTotalAppend | src/app/api/outreach/buildPayload.ts:162-163 | rows of one day are summed, never overwritten: totals add over consecutive blocks of rows |
| OutreachIngest.UndatedRowIgnored | src/app/api/outreach/buildPayload.ts:158-159 | a row whose first cell is not a `DD.MM.YYYY` date contributes to no day |
| OutreachIngest.SameDayRowsAdd | src/app/api/outreach/buildPayload.ts:160-163 | two rows of the same day add up cell by cell |
| Numbers.RoundHalfUp | src/app/api/outreach/buildPayload.ts:203 | `Math.round` lands within half of its argument, halves going up |
| Numbers.Round2Bounds | src/app/api/outreach/buildPayload.ts:203-223 | rounding to cents moves a value by at most half a cent and gives whole cents |
| Numbers.RoundSumIsRound2 | src/app/api/outreach/buildPayload.ts:203-223 | the `Number.isInteger` short cut gives the same result as rounding to cents |
| Numbers.Round2Idempotent | src/app/api/outreach/buildPayload.ts:203 | rounding twice is rounding once |
| Numbers.Round2Monotone | src/app/api/outreach/buildPayload.ts:203 | rounding never reverses the order of two values |
| Numbers.SkipSpacesIsTrimStart | src/app/api/outreach/buildPayload.ts:148 | `parseFloat` skips exactly the leading white space that `trimStart` removes |
| Numbers.ReplaceFirstComma | src/app/api/outreach/buildPayload.ts:148 | only the first comma becomes a point; text without a comma is unchanged |
| Numbers.ParseFloatDigits | src/app/api/outreach/buildPayload.ts:148-149 | a cell of plain digits reads as the number they spell |
| Numbers.ParseFloatNat | src/app/api/outreach/buildPayload.ts:148-149 | a whole number written out in digits reads back as itself |
| Numbers.ParseFloatNaN | src/app/api/outreach/buildPayload.ts:148-149 | a text reads as `NaN` exactly when, after white space and one sign, it starts with neither `Infinity`, a digit, nor a point followed by a digit |
| Numbers.ParseFloatDecimal | src/app/api/outreach/buildPayload.ts:148 | `digits.frac` followed by text that cannot continue the number reads as that decimal |
| Numbers.ToNumDecimalComma | src/app/api/outreach/buildPayload.ts:147-150 | a cell written with a decimal comma reads as the decimal it means |
| Numbers.ToNumEmpty | src/app/api/outreach/buildPayload.ts:147-150 | an empty cell and "n/a" count as 0 |
| Numbers.ToNumCommaExample | src/app/api/outreach/buildPayload.ts:147-150 | "12,5" reads as twelve and a half |
| Numbers.ToNumSecondCommaExample | src/app/api/outreach/buildPayload.ts:148 | "1,234,5" reads as 1.234, since only the first comma is replaced |
| Numbers.Round2 | src/app/api/outreach/buildPayload.ts:203 | `Math.round(x*100)/100`; `Round2Bounds`, `Round2Idempotent` and `Round2Monotone` state that it moves a value by at most half a cent onto whole cents, is idempotent and keeps order |
| Numbers.RoundSum | src/app/api/outreach/buildPayload.ts:203 | integers kept, others rounded to cents; `RoundSumIsRound2` states that this equals rounding to cents |
| Numbers.ParseFloat | src/app/api/outreach/buildPayload.ts:148 | `parseFloat`; `ParseFloatNaN`, `ParseFloatInfinity`, `ParseFloatDigits`, `ParseFloatDecimal`, `PointBeforeExponent` and `ParseFloatUnsigned` state when it is `NaN`, infinite or the decimal the text starts with |
| Numbers.ParseFloatInfinity | src/app/api/outreach/buildPayload.ts:148 | `Infinity`, `+Infinity` or `-Infinity`, whatever follows, reads as infinity of that sign |
| Numbers.PointBeforeExponent | src/app/api/outreach/buildPayload.ts:148 | a point without fraction digits may stand before the exponent: `5.e3` reads as 5000 |
| Numbers.ToNum | src/app/api/outreach/buildPayload.ts:147-150 | `toNum`: a cell with its first comma made a point, read by `parseFloat`, `NaN` giving 0; stated by `ToNumDecimalComma`, `ToNumEmpty` and the two examples |
| Numbers.NumberOfDigits | src/components/KPITab.tsx:136-141 | `Number` of a text of digits is the number they spell |
| Numbers.NumberOfIntText | src/components/KPITab.tsx:136-141 | `Number` of an integer's decimal text, with its minus sign, is that integer |
| Numbers.NumberLeadingSpace | src/components/KPITab.tsx:136-141 | white space in front of a text does not change its `Number` |
| Numbers.NumberPlusSign | src/components/KPITab.tsx:136-141 | a plus sign before digits is accepted: `+7` is 7 |
| Numbers.NumberDecimal | src/components/KPITab.tsx:136-141 | `digits.digits` is the decimal it spells |
| Numbers.NumberZeroFraction | src/components/KPITab.tsx:136-141 | `digits.0` is the whole number of the digits |
| Numbers.NumberExponent | src/components/KPITab.tsx:136-141 | `digits e digits` is the number scaled by that power of ten: `1e1` is 10 |
| Numbers.NumberHex | src/components/KPITab.tsx:136-141 | `0x` and hexadecimal digits is their value: `0x1A` is 26 |
| Numbers.NumberTrailingText | src/components/KPITab.tsx:136-141 | digits followed by text that cannot continue a number are `NaN` |
| Numbers.NumberSignedHex | src/components/KPITab.tsx:136-141 | a sign before a `0x` number makes it `NaN` |
| Calendar.DayNumberOrder | src/app/api/outreach/buildPayload.ts:177-190 | comparing time values orders valid dates as the calendar does, and equal time values mean equal dates |
| Calendar.MakeDate | src/app/api/outreach/buildPayload.ts:51 | `new Date(y, monthIndex, day)` always yields a valid date, rolling months and days over |
| Calendar.MakeDateDayNumber | src/app/api/outreach/buildPayload.ts:51 | the built date lies `day - 1` days after the first of the rolled-over month |
| Calendar.MakeDateInRange | src/app/api/outreach/buildPayload.ts:51 | in-range arguments give exactly the date they name, for years outside 0 to 99 |
| Calendar.MakeDateTwoDigitYear | src/app/api/outreach/buildPayload.ts:51 | a year from 0 to 99 is read as 1900 to 1999 |
| Calendar.NormalizeDayNumber | src/app/api/outreach/buildPayload.ts:51 | rolling over lands exactly `k` days after the first of the month, in both directions |
| Calendar.IsoWeekday | src/app/api/outreach/buildPayload.ts:60 | `getUTCDay() \|\| 7` is a weekday from Monday = 1 to Sunday = 7 |
| Calendar.ThursdayOf | src/app/api/outreach/buildPayload.ts:60 | the Thursday of a date's Monday-to-Sunday week is within three days of it |
| Calendar.IsoWeekOf | src/app/api/outreach/buildPayload.ts:58-64 | the ISO week is the seven-day block, counted from the first of January of the Thursday's year, that holds the Thursday; it is between 1 and 53 |
| Calendar.LastDayOf2024 | src/app/api/outreach/buildPayload.ts:58-64 | 2024-12-31 belongs to week 1 of 2025 |
| Calendar.FirstDayOf2023 | src/app/api/outreach/buildPayload.ts:58-64 | 2023-01-01 belongs to week 52 of 2022 |
| Calendar.FourthOfJanuaryInWeekOne | src/app/api/outreach/buildPayload.ts:58-64 | the 4th of January is always in week 1 of its year |
| Calendar.SameWeekSameKey | src/app/api/outreach/buildPayload.ts:58-64 | all days of one Monday-to-Sunday week get the same ISO week |
| Calendar.IsoWeekMonotone | src/app/api/outreach/buildPayload.ts:58-64 | ISO weeks never go backwards as dates advance |
| Calendar.IsoWeekYear | src/app/api/outreach/buildPayload.ts:58-64 | `isoWeekYear` as written: the date and its year start are rebuilt with `Date.UTC`, and the week is counted from the first of January of the rebuilt Thursday's year as `Date.UTC` reads it |
| Calendar.IsoWeekYearAgrees | src/app/api/outreach/buildPayload.ts:58-64 | outside the years -1 to 100, `isoWeekYear` as written gives the ISO week |
| Calendar.IsoWeekYearOfYear99 | src/app/api/outreach/buildPayload.ts:58-64 | 0099-12-31 is rebuilt as 1999-12-31 and gets week 52 of 1999 |
| Calendar.IsoWeekYearOfYear100 | src/app/api/outreach/buildPayload.ts:58-64 | 0100-01-01 has its Thursday in year 99, whose start is read as 1999-01-01, and gets week -99085 of year 99 |
| Calendar.Ymd | src/app/api/outreach/buildPayload.ts:54-57 | `ymd(d)` ends in `-MM-DD`, two digits each that read back as the month and the day; `YmdDigits` gives the year's digits and `YmdRoundTrip` reads the whole text back as the date |
| Calendar.YmdRoundTrip | src/app/api/outreach/buildPayload.ts:54-57 | the `Y-MM-DD` text of a date reads back as that date, so distinct days get distinct keys |
| Calendar.YmdInjective | src/app/api/outreach/buildPayload.ts:54-57 | two dates with the same `Y-MM-DD` key are the same date |
| Calendar.EarliestDate | src/app/api/outreach/buildPayload.ts:177 | the date returned is in the set and no later than any other |
| Calendar.SortDates | src/app/api/outreach/buildPayload.ts:177 | the result holds exactly the dates of the set, in strictly ascending order |
| OutreachWeeks.AddSums | src/app/api/outreach/buildPayload.ts:195 | each week column grows by exactly the day's value in that column |
| OutreachWeeks.AddDay | src/app/api/outreach/buildPayload.ts:178-196 | adding the next date keeps the loop invariant: weeks listed in ascending order, each with its days in order, its first and last day, and its column totals |
| OutreachWeeks.BucketLoop | src/app/api/outreach/buildPayload.ts:178-196 | after all sorted dates, every date sits in its ISO week and every week's sums are the totals of its days |
| OutreachWeeks.BucketWeeks | src/app/api/outreach/buildPayload.ts:176-201 | the weeks are well formed and strictly ascending, and their days are exactly the days of the map, in order, with their merged sums |
| OutreachWeeks.WeekOfDay | src/app/api/outreach/buildPayload.ts:179 | for a valid date the key is its ISO week |
| OutreachWeeks.WeekOfDayMonotone | src/app/api/outreach/buildPayload.ts:177-201 | ISO weeks of ascending dates ascend, so sorting the weeks afterwards keeps their order |
| OutreachWeeks.RoundAll | src/app/api/outreach/buildPayload.ts:203-223 | every rounded sum is within half a cent of the sum |
| OutreachWeeks.StatusAt | src/app/api/outreach/buildPayload.ts:207-215 | a status is shown exactly for a goal column of a week that is not in the future, and it is the band of the total over the goal |
| OutreachWeeks.Statuses | src/app/api/outreach/buildPayload.ts:207-215 | one status per header, present exactly for goal columns of weeks not in the future |
| OutreachWeeks.FutureWeeksUncoloured | src/app/api/outreach/buildPayload.ts:205-212 | a week after the current one has no status at all |
| OutreachWeeks.StatusGrows | src/app/api/outreach/buildPayload.ts:213-214 | a larger weekly total never gets a lower band |
| OutreachWeeks.IntToStringInjective | src/app/api/outreach/buildPayload.ts:180-217 | `String(y)` is injective |
| OutreachWeeks.WeekKeyText | src/app/api/outreach/buildPayload.ts:180 | the week key ends in `-W` and two digits that read back as the week; `WeekKeyTextParts` gives the year's text before it and `WeekKeyTextInjective` that distinct weeks get distinct keys (the same template keys the payload at line 217) |
| OutreachWeeks.WeekKeyTextParts | src/app/api/outreach/buildPayload.ts:180 | `YYYY-Www` is the year's text, `-W` and exactly two digits that spell the week |
| OutreachWeeks.WeekKeyTextInjective | src/app/api/outreach/buildPayload.ts:176-180 | distinct ISO weeks have distinct text keys |
| OutreachWeeks.DaysOut | src/app/api/outreach/buildPayload.ts:221-224 | each day keeps its `Y-MM-DD` date and its number of sums |
| OutreachWeeks.FinalizeWeek | src/app/api/outreach/buildPayload.ts:202-227 | the week keeps its key, year, week, first and last day and widths, and a future week has no status |
| OutreachWeeks.FinalizedSums | src/app/api/outreach/buildPayload.ts:195-203 | each rounded column total is within half a cent of the sum of the week's days |
| OutreachWeeks.FinalizedStatus | src/app/api/outreach/buildPayload.ts:207-215 | a week up to the current one shows, for each goal column, the band of its rounded total over the goal |
| OutreachWeeks.Tail | src/app/api/outreach/buildPayload.ts:139-140 | a header row loses exactly its first (date) column |
| OutreachWeeks.Prefixed | src/app/api/outreach/buildPayload.ts:142-143 | every name is prefixed with its tab and a colon |
| OutreachWeeks.MergedHeaders | src/app/api/outreach/buildPayload.ts:141-144 | the Content columns, then the Outreach columns, each without the date column |
| OutreachWeeks.MergedHeaderGoal | src/app/api/outreach/buildPayload.ts:141-144 | a merged header is coloured exactly when its column is named after a goal |
| OutreachWeeks.FinalizeAll | src/app/api/outreach/buildPayload.ts:200-227 | one payload week per week |
| OutreachWeeks.FinalizedShape | src/app/api/outreach/buildPayload.ts:200-227 | the payload weeks ascend strictly, each has one sum and one status per header, at least one day and a week number from 1 to 53 |
| OutreachPayload.IngestAndBucket | src/app/api/outreach/buildPayload.ts:154-227 | the day map holds each date's totals of both tabs, the weeks hold exactly those days in date order with their merged sums, and the payload weeks are those weeks finalised, ascending and well shaped |
| OutreachPayload.MergedWeeks | src/app/api/outreach/buildPayload.ts:137-227 | the merged headers are the Content then Outreach columns; the day map is the two tabs' per-day totals, the weeks bucket exactly its days in date order, and the payload weeks are those weeks finalised, ascending and well shaped |
| OutreachPayload.FetchFromSheets | src/app/api/outreach/buildPayload.ts:114-248 | the payload is the Merged tab, whose range joins the Content and Outreach ranges and whose weeks are built from the two tabs' per-day totals as above, followed by an empty Termine tab that keeps its range, stamped with the given time |
| Text.NatToString | src/app/api/outreach/buildPayload.ts:55 | `String(n)` of a natural number is a non-empty run of digits without a leading zero |
| Text.NatToStringRoundTrip | src/app/api/outreach/buildPayload.ts:55 | the digits of `String(n)` spell `n` |
| Text.IntToString | src/app/api/outreach/buildPayload.ts:180 | `String(i)` is never empty |
| Text.PadStart2 | src/app/api/outreach/buildPayload.ts:55 | `padStart(2, '0')` leaves two or more characters alone and otherwise puts zeros in front up to two characters |
| Text.PadStart2Small | src/app/api/outreach/buildPayload.ts:55 | a number below 100, padded, is two digits that spell it |
| Text.IndexOf | src/app/api/outreach/buildPayload.ts:68 | `indexOf` is -1 exactly when the character is absent, and otherwise its first position |
| Text.TrimStart | src/app/api/outreach/buildPayload.ts:148 | the text with its leading white space, and only that, removed |
| Text.TrimEnd | src/app/api/outreach/buildPayload.ts:69 | the text with its trailing white space, and only that, removed |
| Text.Trim | src/app/api/outreach/buildPayload.ts:69 | `trim()` neither starts nor ends with white space |
| Text.TrimEmpty | src/app/api/outreach/buildPayload.ts:69 | a text trims to nothing exactly when it is all white space |
| Text.Split | src/app/api/outreach/buildPayload.ts:126 | `split` gives at least one piece and no piece holds the separator |
| Text.SplitJoin | src/app/api/outreach/buildPayload.ts:126 | joining the pieces with the separator gives back the text |
| Text.JoinSplit | src/app/api/outreach/buildPayload.ts:126 | splitting separator-free pieces joined by the separator gives back the pieces |
| Text.SplitThree | src/components/ShortVideosTab.tsx:62 | three separator-free pieces joined by the separator split into those three |
| Calendar.DaysInMonth | src/app/api/outreach/buildPayload.ts:51 | every month has 28 to 31 days |
| Calendar.Normalize | src/app/api/outreach/buildPayload.ts:51 | rolling a day count over from a month always lands on a valid date |
| Calendar.NextDay | src/app/api/outreach/buildPayload.ts:58-64 | the next day is valid and one day number later |
| Calendar.IsoYearOf | src/app/api/outreach/buildPayload.ts:61 | the Thursday's year is the year whose days hold it |
| Calendar.ParseYmdOfParts | src/components/ShortVideosTab.tsx:61-62 | a `dddd-dd-dd` text reads as the date its parts spell |
| Calendar.YmdDigits | src/app/api/outreach/buildPayload.ts:54-57 | the parts of the `Y-MM-DD` key are the year's digits and two digits each for month and day |
| Numbers.SkipSpaces | src/app/api/outreach/buildPayload.ts:148 | skipping leading white space moves forward and stays inside the text |
| Numbers.DigitRun | src/app/api/outreach/buildPayload.ts:148 | a run of digits stays inside the text |
| Numbers.FractionLength | src/app/api/outreach/buildPayload.ts:148 | the digits after a decimal point stay inside the text |
| Numbers.ExponentAt | src/app/api/outreach/buildPayload.ts:148 | an exponent part stays inside the text |
| Numbers.ParseFloatUnsigned | src/app/api/outreach/buildPayload.ts:148 | a text starting with a digit reads as its unsigned numeral |
| Numbers.NoCommaUnchanged | src/app/api/outreach/buildPayload.ts:148 | digits without a comma are left as they are |
| Numbers.ReplaceAfterDigits | src/app/api/outreach/buildPayload.ts:148 | the first comma after the digits becomes a point and later ones stay |
| OutreachIngest.Columns | src/app/api/outreach/buildPayload.ts:129 | the columns 0 to n - 1, in order |
| OutreachIngest.IngestRow | src/app/api/outreach/buildPayload.ts:157-173 | one more row keeps every day's sums those of its rows so far, leaving the other side's sums alone |
| OutreachWeeks.RoundRow | src/app/api/outreach/buildPayload.ts:203 | a rounded sum is within half a cent of the sum |
| OutreachWeeks.DatesOf | src/app/api/outreach/buildPayload.ts:193 | one date per day row |
| OutreachWeeks.WeeksOf | src/app/api/outreach/buildPayload.ts:200-201 | one week per listed key |
| OutreachWeeks.BucketDays | src/app/api/outreach/buildPayload.ts:176-196 | the days of the weeks are the sorted dates of the map with their merged sums |
| YearCache.RevenueCache.constructor | src/server/services/googleSheetsCache.service.ts:6-11 | a cache starts empty, with no fetch in flight, and keeps its two time windows |
| SheetsRoute.Route.constructor | src/app/api/google-sheets/route.ts:10-16 | the route keeps the spreadsheet ids of 2025 and 2026 over a new, empty cache |
| OutreachCache.PayloadCache.constructor | src/app/api/outreach/buildPayload.ts:81-83 | the payload cache starts empty, with no build in flight |
| WeeklyGoalRanges.FirstCovering | src/lib/weeklyGoals.ts:39-43 | `find` returns the first goal set whose range holds the week, and none when no set does |
| WeeklyGoalRanges.GoalsFor | src/lib/weeklyGoals.ts:38-45 | a week no set covers gets no goals at all |
| WeeklyGoalRanges.GetGoalsForWeek | src/lib/weeklyGoals.ts:38-45 | the goals of the first set covering the week, or none; the shipped sets' answers are stated by `FirstRegime`, `SecondRegime` and `NoGoalsOutsideRanges` |
| WeeklyGoalRanges.IsGoalKey | src/lib/weeklyGoals.ts:48-52 | whether some goal set has the name as a key; `GoalKeys` lists exactly which names are |
| WeeklyGoalRanges.HasGoalKey | src/lib/weeklyGoals.ts:48-52 | a name is a goal key exactly when some goal set has it as a key |
| WeeklyGoalRanges.RangeEndsIncluded | src/lib/weeklyGoals.ts:6-42 | both the first and the last week of a range belong to it |
| WeeklyGoalRanges.ShippedRangesDisjoint | src/lib/weeklyGoals.ts:12-36 | no week is covered by both shipped goal sets |
| WeeklyGoalRanges.FirstRegime | src/lib/weeklyGoals.ts:12-45 | weeks 202530 to 202552 get the first set's goals |
| WeeklyGoalRanges.SecondRegime | src/lib/weeklyGoals.ts:25-45 | every week from 202601 on gets the second set's goals |
| WeeklyGoalRanges.NoGoalsOutsideRanges | src/lib/weeklyGoals.ts:38-45 | weeks before 202530 and the numbers between 202552 and 202601 get no goals |
| WeeklyGoalRanges.WeekIdOrder | src/lib/weeklyGoals.ts:1 | `year * 100 + week` orders ISO weeks as (year, week) does |
| WeeklyGoalRanges.IsoWeeksByRegime | src/lib/weeklyGoals.ts:12-45 | every ISO week of 2026 on is in the second regime, 2025-W30 to W52 in the first |
| WeeklyGoalRanges.GoalKeys | src/lib/weeklyGoals.ts:48-52 | the goal keys are exactly Connections, Posts, Comments, LI_Erstnachricht, LI_FollowUp and UW_Proposals |
| Summarize.HeaderIndex | src/lib/summarize.ts:22 | `indexOf` is -1 exactly for a missing header, and otherwise the first position holding it |
| Summarize.Columns | src/lib/summarize.ts:22 | one column per parameter: a numeric parameter as given, a name by its header position |
| Summarize.Window | src/lib/summarize.ts:17-19 | the bounds are the two dates in order, swapped when the start is after the end; years 0 to 99 are read as 1900 to 1999 (`TwoDigitYearsRemapped`) |
| Summarize.InWindow | src/lib/summarize.ts:32-33 | a day is skipped only when its date compares before the start or after the end; `WindowIsInclusive` and `UndatedDayCounts` state which days count |
| Summarize.DateValue | src/lib/summarize.ts:13-16 | `toDateOnly` of a text gives a time value exactly when the text is a `Y-MM-DD` calendar date, and from year 100 on it is that date's own; `DateValueOfYmd` and `TwoDigitYearsRemapped` state the round trip and the 0 to 99 remap |
| Summarize.DateValueOfYmd | src/lib/summarize.ts:13-16 | a date from year 100 on, written `Y-MM-DD`, compares as itself |
| Summarize.TwoDigitYearsRemapped | src/lib/summarize.ts:13-16 | `new Date(year, month, day)` reads a year from 0 to 99 as 1900 to 1999, so "0050-01-01" compares as "1950-01-01" |
| Summarize.Summary | src/lib/summarize.ts:7-48 | one cents-rounded in-window total per parameter key; `SummarizePeriod` computes it, and `SummaryKeys` and `SummaryIsColumnTotal` state its keys and values |
| Summarize.ZeroKeys | src/lib/summarize.ts:24-28 | every parameter's key, names as given and numbers as decimal text, starts at 0 |
| Summarize.AddDay | src/lib/summarize.ts:34-39 | one day adds to each key the cells of the resolved parameters with that key, a missing cell counting 0 |
| Summarize.AddDayInWindow | src/lib/summarize.ts:32-39 | a day outside the window leaves the totals as they are; a day inside adds its cells as `AddDay` does |
| Summarize.AddWeek | src/lib/summarize.ts:31-40 | the days of a week add exactly what the in-window days add |
| Summarize.AddWeeks | src/lib/summarize.ts:30-41 | after all weeks, each key holds the sum over all in-window days |
| Summarize.RoundAllKeys | src/lib/summarize.ts:44-46 | every key is kept and its value rounded to cents |
| Summarize.SummarizePeriod | src/lib/summarize.ts:7-48 | the result is the summary: one rounded in-window total per parameter key |
| Summarize.SummarizePeriodTotals | src/lib/summarize.ts:51-64 | reading every parameter's key from the summary with 0 as default gives the summary itself |
| Summarize.SwappedBounds | src/lib/summarize.ts:19 | with two dates as bounds, their order does not matter |
| Summarize.WindowIsInclusive | src/lib/summarize.ts:19-33 | a dated day counts exactly when it lies between the bounds, both ends included |
| Summarize.UndatedDayCounts | src/lib/summarize.ts:13-33 | a day whose date is not a date is never skipped |
| Summarize.SummaryKeys | src/lib/summarize.ts:25-47 | the summary has exactly the parameters' keys, numeric ones as decimal text |
| Summarize.UnknownHeaderIsZero | src/lib/summarize.ts:22-36 | a name that is not a header stays at 0 unless a numeric parameter shares its key |
| Summarize.ColumnTotalAppend | src/lib/summarize.ts:30-31 | a column total over two runs of days is the sum of their totals |
| Summarize.SummaryIsColumnTotal | src/lib/summarize.ts:7-48 | a parameter whose key is its own gets the cents-rounded sum of its column over the in-window days of all weeks |
| DailyInputs.DaysBetween | src/components/DailyInputsTab.tsx:43-49 | the days from the start to the end, both included, one after the other; empty when the end is before the start |
| DailyInputs.RangeMembers | src/components/DailyInputsTab.tsx:43-49 | a date is listed exactly when it lies in the inclusive range, and the list ascends strictly |
| DailyInputs.UnmarkedDays | src/components/DailyInputsTab.tsx:114-115 | every day of the range, and only those, starts as `none` |
| DailyInputs.CarryOver | src/components/DailyInputsTab.tsx:177-179 | the new range's days keep their old mark where they had one and are `none` otherwise |
| DailyInputs.AddItem | src/components/DailyInputsTab.tsx:109-125 | a blank title, a missing date or an end before the start changes nothing; otherwise a `tmp-` item with the trimmed title and every day of the range unmarked goes in front |
| DailyInputs.RemoveItem | src/components/DailyInputsTab.tsx:205-210 | the items with the id go, every other item stays, and the length drops by their number; `RemoveAppend` and `RemoveOne` state that the items that stay keep their order |
| DailyInputs.RemoveAbsent | src/components/DailyInputsTab.tsx:207 | removing an id no item has changes nothing |
| DailyInputs.RemoveAppend | src/components/DailyInputsTab.tsx:207 | removing from a joined list is removing from each part and joining, so the items that stay keep their order |
| DailyInputs.RemoveOne | src/components/DailyInputsTab.tsx:207 | a single item goes exactly when it carries the id |
| DailyInputs.SettleAdd | src/components/DailyInputsTab.tsx:139-145 | a failed insert drops the temporary item; a stored one replaces it at the front |
| DailyInputs.FailedAddRestores | src/components/DailyInputsTab.tsx:125-141 | a failed insert gives back the list as it was before the add |
| DailyInputs.FindIndex | src/components/DailyInputsTab.tsx:149-173 | `find` fails exactly when no item has the id, and otherwise points at one that has it |
| DailyInputs.ReplaceById | src/components/DailyInputsTab.tsx:166-198 | the items with the id are replaced, every other one stays in place |
| DailyInputs.SetStatus | src/components/DailyInputsTab.tsx:148-157 | an unknown id changes nothing; only the items with the id change, and only in that day's mark |
| DailyInputs.SetStatusOnlyThatDay | src/components/DailyInputsTab.tsx:152-156 | with unique ids, the item gets exactly the new mark for that day and keeps every other mark |
| DailyInputs.SetStatusRollback | src/components/DailyInputsTab.tsx:164-167 | restoring the saved item after a failed update gives back the list as it was |
| DailyInputs.UpdateItem | src/components/DailyInputsTab.tsx:170-185 | a rejected edit or an unknown id changes nothing; otherwise the item gets the trimmed title, the new range and its old marks on the shared days, and the others stay |
| DailyInputs.SameRangeKeepsMarks | src/components/DailyInputsTab.tsx:176-179 | an edit that keeps the range keeps every mark |
| DailyInputs.CountOf | src/components/DailyInputsTab.tsx:61-65 | at most one count per day seen |
| DailyInputs.MarkedCount | src/components/DailyInputsTab.tsx:61-62 | the elapsed days are at most the days seen |
| DailyInputs.LongestStreak | src/components/DailyInputsTab.tsx:63-66 | the longest run is at least the run so far |
| DailyInputs.ForwardPass | src/components/DailyInputsTab.tsx:55-67 | the forward loop counts the done, missed, neutral and marked days up to today and finds the longest run that only a miss breaks |
| DailyInputs.CurrentStreak | src/components/DailyInputsTab.tsx:69-77 | the backward walk finds the run of the forward pass's last day: done and neutral days since the last miss, unmarked and future days skipped |
| DailyInputs.Tally | src/components/DailyInputsTab.tsx:55-81 | the statistics are the counts, the total, the rest and the two streaks of the sorted days |
| DailyInputs.MarkedIsSum | src/components/DailyInputsTab.tsx:62-65 | the elapsed days are exactly the done, missed and neutral ones |
| DailyInputs.LongestBelowCounts | src/components/DailyInputsTab.tsx:63-66 | no streak is longer than the done and neutral days |
| DailyInputs.MissResets | src/components/DailyInputsTab.tsx:65 | a miss up to today resets the streak to 0 |
| DailyInputs.FutureMarksIgnored | src/components/DailyInputsTab.tsx:59-76 | days after today are ignored: marks that agree on every day up to today give the same counts and streaks |
| DailyInputs.SortedCardinality | src/components/DailyInputsTab.tsx:52-79 | the sorted day list has as many entries as there are days |
| DailyInputs.CalcStats | src/components/DailyInputsTab.tsx:51-82 | the days are the marked dates in ascending order, and the stats are the tally over them: done, missed and neutral count the days up to today with that mark, elapsed the marked ones, total all days, remaining total minus elapsed, the current streak that after the last day and the longest the largest after any prefix; done, missed and neutral add up to elapsed, which is at most total, and the current streak is at most the longest, which is at most the done and neutral days |
| Revenue.KeepDigitsAndMinus | src/components/RevenueTab.tsx:13 | the filter keeps only digits and minus signs and never lengthens the text |
| Revenue.KeepAllKept | src/components/RevenueTab.tsx:13 | a text of digits and minus signs only passes the filter unchanged |
| Revenue.ToInt | src/components/RevenueTab.tsx:10-15 | a missing or blank cell reads as 0 |
| Revenue.KeepAppend | src/components/RevenueTab.tsx:13 | filtering a concatenation filters each part |
| Revenue.KeepSpaces | src/components/RevenueTab.tsx:11-13 | white space never survives the filter |
| Revenue.KeepTrimmed | src/components/RevenueTab.tsx:11-13 | trimming before filtering changes nothing |
| Revenue.KeepTrimStart | src/components/RevenueTab.tsx:11-13 | dropping leading white space before filtering changes nothing |
| Revenue.KeepDropsLeadingSpace | src/components/RevenueTab.tsx:11-13 | one leading white-space character changes nothing after filtering |
| Revenue.KeepTrimEnd | src/components/RevenueTab.tsx:11-13 | dropping trailing white space before filtering changes nothing |
| Revenue.ToIntReadsKept | src/components/RevenueTab.tsx:10-15 | a cell reads as `parseInt` of its digits and minus signs, `NaN` giving 0 |
| Revenue.ParseIntDigits | src/components/RevenueTab.tsx:13 | a run of digits reads as the number it spells |
| Revenue.ParseIntNegative | src/components/RevenueTab.tsx:13 | a minus sign before digits negates them |
| Revenue.ParseIntStopsAtMinus | src/components/RevenueTab.tsx:13 | a minus sign after the digits ends the number |
| Revenue.ParseIntNoDigits | src/components/RevenueTab.tsx:13-14 | an empty text, a lone minus or two minus signs read as `NaN` |
| Revenue.ParseInt | src/components/RevenueTab.tsx:13 | `parseInt` in base 10; `ParseIntDigits`, `ParseIntNegative`, `ParseIntStopsAtMinus` and `ParseIntNoDigits` state what it reads |
| Revenue.ToIntRoundTrip | src/components/RevenueTab.tsx:10-15 | every integer written as `String(i)` reads back as itself |
| Revenue.ToIntIgnoresSeparator | src/components/RevenueTab.tsx:9-13 | any character other than a digit or a minus sign is ignored |
| Revenue.ThousandsSeparator | src/components/RevenueTab.tsx:9 | "2,880" style cells read as their digits without the comma |
| Revenue.CellAt | src/components/RevenueTab.tsx:63-65 | a cell past the end of a short row is `undefined` |
| Revenue.Tabulate | src/components/RevenueTab.tsx:50-75 | no values give the empty table; otherwise the first row is the header, one chart point per data row with its month and revenue, and the totals of columns 1 and 2 |
| Revenue.ColumnTotalAppend | src/components/RevenueTab.tsx:72-73 | the totals of two blocks of rows add up |
| Revenue.BlankCellAddsNothing | src/components/RevenueTab.tsx:12 | a row whose cell is blank or missing adds nothing to that total |
| Revenue.ChartSumsValues | src/components/RevenueTab.tsx:71-72 | a chart whose values are, one by one, the numbers of a column sums to that column's sum |
| Revenue.RevenueIsChartSum | src/components/RevenueTab.tsx:71-72 | the revenue total is the sum of the chart's values |
| Revenue.TableTotals | src/components/RevenueTab.tsx:60-75 | the table's revenue total is its chart's sum, and the header row never counts |
| KpiBoard.Divide | src/components/KPIBoard.tsx:199 | `current / target` is the quotient for a non-zero target, and plus infinity, minus infinity or `NaN` by the sign of the current for a zero target |
| KpiBoard.BandOf | src/components/KPIBoard.tsx:47-59 | green exactly from 0.8, yellow from 0.6, orange from 0.25, red below, with `NaN` and minus infinity red and plus infinity green |
| KpiBoard.ProgressColor | src/components/KPIBoard.tsx:47-53 | the bar colour of a ratio's band; `BandOf` states the bands and `ColoursAgree` that it changes exactly when the text colour does |
| KpiBoard.TextColor | src/components/KPIBoard.tsx:54-59 | the text colour of a ratio's band, stated by `BandOf` and `ColoursAgree` |
| KpiBoard.BandMonotone | src/components/KPIBoard.tsx:47-59 | a higher ratio never gets a lower band |
| KpiBoard.ColoursAgree | src/components/KPIBoard.tsx:47-59 | the bar colour and the text colour change together |
| KpiBoard.ZeroTarget | src/components/KPIBoard.tsx:47-59 | a zero target makes a positive current green and leaves 0 or less red |
| KpiBoard.Monthly | src/components/KPIBoard.tsx:141 | the monthly KPIs are exactly those without a parent |
| KpiBoard.Weekly | src/components/KPIBoard.tsx:142 | the weekly KPIs are exactly those with a parent |
| KpiBoard.MonthlyWeeklyPartition | src/components/KPIBoard.tsx:141-142 | every KPI is listed exactly once, as monthly or as weekly |
| KpiBoard.Children | src/components/KPIBoard.tsx:195 | the children of a monthly KPI are exactly the KPIs naming it as parent |
| KpiBoard.DerivedCurrent | src/components/KPIBoard.tsx:195-198 | a monthly KPI without children shows its own current |
| KpiBoard.ChildrenAreWeekly | src/components/KPIBoard.tsx:195 | filtering the weekly KPIs first changes no KPI's children |
| KpiBoard.DerivedFromChildren | src/components/KPIBoard.tsx:195-198 | a monthly KPI with children shows the sum of their current values |
| KpiBoard.NewChildAdds | src/components/KPIBoard.tsx:170-198 | a new child adds its current to its parent's figure |
| KpiBoard.FirstWithId | src/components/KPIBoard.tsx:150 | `find` fails exactly when no KPI has the id, and otherwise points at the first one that has it |
| KpiBoard.ReplaceById | src/components/KPIBoard.tsx:170 | the KPIs with the edited id are replaced, every other one stays in place |
| KpiBoard.ReplaceIsUpdate | src/components/KPIBoard.tsx:170 | with unique ids, editing is an update at the one position that holds the id |
| KpiBoard.Save | src/components/KPIBoard.tsx:144-173 | a missing title, current, target or weekly parent saves nothing; a weekly KPI whose unit differs from its parent's saves nothing; otherwise a new KPI is appended or the edited one replaced |
| KpiBoard.SavedWeeklyUsesParentUnit | src/components/KPIBoard.tsx:148-159 | a saved weekly KPI has its parent's unit |
| KpiBoard.UnknownParentNeedsNoUnit | src/components/KPIBoard.tsx:150-153 | a weekly KPI whose parent is not in the list is saved only without a unit |
| KpiBoard.EditChangesOne | src/components/KPIBoard.tsx:161-170 | editing a KPI keeps its id and changes that one element and no other |
| KpiPeriods.YearAndMonthText | src/components/KPITab.tsx:134-140 | a period without `-` is all year and has no month part |
| KpiPeriods.JsNumber | src/components/KPITab.tsx:132-141 | `Number` of a period part, kept when it is an integer; `DigitsNumber`, `IntTextNumber` and `NormalizeZeroFraction` state what it reads |
| KpiPeriods.DigitsNumber | src/components/KPITab.tsx:136 | a part of digits reads as the integer they spell, and `String` of it drops the leading zeros |
| KpiPeriods.IntTextNumber | src/components/KPITab.tsx:140-141 | an integer's decimal text reads back as itself |
| KpiPeriods.NormalizeZeroFraction | src/components/KPITab.tsx:132-137 | a month written `3.0` normalises as `3` does |
| KpiPeriods.NormalizePeriod | src/components/KPITab.tsx:132-137 | an empty period, or one without a month part, normalises to ""; any other result holds a `-` |
| KpiPeriods.NormalizeLabel | src/components/KPITab.tsx:132-137 | a `YYYY-MM` label is already normal |
| KpiPeriods.NormalizeParts | src/components/KPITab.tsx:134-136 | a period with both parts becomes the year part, `-` and `String(Number(month))` padded to two characters |
| KpiPeriods.NormalizePadsMonth | src/components/KPITab.tsx:136 | a month of digits comes out as two digits ("2025-3" is "2025-03"), and parts after the month are dropped |
| KpiPeriods.MonthsBetween | src/components/KPITab.tsx:138-152 | the loop pushes exactly the labels of the month range, stopping at once when a year or the start month is not a number |
| KpiPeriods.MonthRange | src/components/KPITab.tsx:138-152 | the labels `monthsBetween` pushes; `MonthsClosedForm`, `MonthsBetweenLabels` and `MonthlessStartIsEmpty` state them |
| KpiPeriods.MonthsFrom | src/components/KPITab.tsx:138-152 | no months when a year or the start month is not a number, otherwise the loop's labels |
| KpiPeriods.MonthLoop | src/components/KPITab.tsx:142-150 | the loop pushes exactly the labels of the month range, in order |
| KpiPeriods.MonthOfIndex | src/components/KPITab.tsx:145-149 | counting months from year 0 and back gives the same year and month |
| KpiPeriods.Labels | src/components/KPITab.tsx:144 | one label per month visited |
| KpiPeriods.LabelsAt | src/components/KPITab.tsx:144 | each label is `year-MM` of its month |
| KpiPeriods.MonthsLabelPairs | src/components/KPITab.tsx:143-150 | the labels pushed are those of the months the loop visits |
| KpiPeriods.PairsFrom | src/components/KPITab.tsx:145-149 | `n` consecutive months from a start |
| KpiPeriods.PairsFromAt | src/components/KPITab.tsx:145-149 | the `i`-th of them is the month `i` after the start |
| KpiPeriods.MonthPairsClosedForm | src/components/KPITab.tsx:143-150 | between real months the loop visits every month from the start to the end, in order, and none when the end is earlier |
| KpiPeriods.MonthAt | src/components/KPITab.tsx:143-150 | the `i`-th label is that of the month `i` after the start |
| KpiPeriods.MonthsClosedForm | src/components/KPITab.tsx:138-152 | between real months the list has one label per month from the start to the end, both included, in order |
| KpiPeriods.LabelRoundTrip | src/components/KPITab.tsx:140-144 | reading a label back gives its year and month |
| KpiPeriods.MonthsBetweenLabels | src/components/KPITab.tsx:138-152 | between two labels the list runs from the start label's month |
| KpiPeriods.StepAgrees | src/components/KPITab.tsx:143-149 | on numbers the loop's test and step are those of the month range |
| KpiPeriods.MonthlessStartHangs | src/components/KPITab.tsx:132-152 | a start without a month part becomes year 0 and month `NaN`, for which the loop test holds against any later end year and a step changes nothing |
| KpiPeriods.MonthlessStartIsEmpty | src/components/KPITab.tsx:132-152 | in the corrected range such a start gives no months |
| KpiTab.BandOf | src/components/KPITab.tsx:102-115 | deep green exactly from 1.0, green from 0.8, yellow from 0.6, orange from 0.25, red below |
| KpiTab.BarClass | src/components/KPITab.tsx:102-108 | the bar class of a ratio's band; `BandOf` states the bands and `ClassesAgree` that it changes exactly when the band does |
| KpiTab.TextColor | src/components/KPITab.tsx:109-115 | the text colour of a ratio's band, stated by `BandOf` and `ClassesAgree` |
| KpiTab.BandMonotone | src/components/KPITab.tsx:102-115 | a higher ratio never gets a lower band |
| KpiTab.ClassesAgree | src/components/KPITab.tsx:102-115 | the bar class and the text colour each change exactly when the band does |
| KpiTab.ZeroTargetReadsAsOne | src/components/KPITab.tsx:157-158 | a target of 0 is read as 1 |
| KpiTab.Pct | src/components/KPITab.tsx:157-158 | the percentage is `100 * num / (den \|\| 1)` clamped to 0..100 |
| KpiTab.PctMonotone | src/components/KPITab.tsx:157-158 | a larger numerator never shows a smaller percentage |
| KpiTab.AddChildStep | src/components/KPITab.tsx:277-282 | one more KPI keeps the map the children's sums of exactly the parents with children |
| KpiTab.NoChildNoSums | src/components/KPITab.tsx:280 | a parent without children sums to 0 |
| KpiTab.WeeklyAggByParent | src/components/KPITab.tsx:275-284 | per parent id, the sums of current and target over its weekly children, and no entry for a KPI without children |
| KpiTab.LastMonthly | src/components/KPITab.tsx:288-291 | a later monthly KPI with the same id replaces an earlier one |
| KpiTab.AddMonthlyStep | src/components/KPITab.tsx:289-297 | one more KPI keeps the map the effective values of exactly the monthly ids |
| KpiTab.MonthlyEffById | src/components/KPITab.tsx:286-299 | one entry per monthly KPI id, from the last KPI with that id |
| KpiTab.EffectiveValues | src/components/KPITab.tsx:286-299 | a monthly KPI with children counts their sums, one without counts its own values, and keeps its unit |
| KpiTab.NewChildAdds | src/components/KPITab.tsx:277-282 | a new weekly KPI adds to its parent's sums and to no other's |
| KpiTab.ForGoal | src/components/KPITab.tsx:403 | the goal's fuels are a sub-list of the fuels |
| KpiTab.ForGoalMembers | src/components/KPITab.tsx:403 | exactly the fuels of the goal are kept |
| KpiTab.Contribution | src/components/KPITab.tsx:413-415 | a fuel adds weight times current unless target-only and weight times target unless current-only, the weight defaulting to 1 |
| KpiTab.InitialMonthAgg | src/components/KPITab.tsx:405-406 | every month of the range starts at 0 |
| KpiTab.AddFuelStep | src/components/KPITab.tsx:408-418 | one more fuel keeps each month's entry the total of the fuels so far |
| KpiTab.AddFuels | src/components/KPITab.tsx:405-418 | each month of the range holds what the goal's fuels for that month and a known KPI add |
| KpiTab.CheckpointsOf | src/components/KPITab.tsx:420 | one checkpoint per month of the range, each with its totals |
| KpiTab.LtRow | src/components/KPITab.tsx:401-424 | a goal's row has one checkpoint per month of its range, the total current over them and a total target of at least 1 |
| KpiTab.RowOver | src/components/KPITab.tsx:401-424 | over a given month range, the row's checkpoints, total current and total target are those of the goal's fuels |
| KpiTab.AppendRow | src/components/KPITab.tsx:401 | one more row keeps every row that of its goal |
| KpiTab.LtRows | src/components/KPITab.tsx:400-426 | one row per goal, in order |
| KpiTab.IgnoredFuel | src/components/KPITab.tsx:409-412 | a fuel outside the month or for an unknown monthly KPI adds nothing |
| KpiTab.MonthTotalSnoc | src/components/KPITab.tsx:416-417 | one more counting fuel adds its contribution to the month |
| KpiTab.MonthTotalAppend | src/components/KPITab.tsx:408-418 | the totals over two lists of fuels add up |
| KpiTab.TargetOnlyAddsNoCurrent | src/components/KPITab.tsx:414 | target-only fuels add nothing to a month's current |
| KpiTab.CurrentOnlyAddsNoTarget | src/components/KPITab.tsx:415 | current-only fuels add nothing to a month's target |
| KpiTab.SumCurrentZero | src/components/KPITab.tsx:421 | checkpoints with no current sum to 0 |
| KpiTab.TargetOnlyGoal | src/components/KPITab.tsx:414-421 | a goal fed only by target-only fuels shows a total current of 0 |
| KpiTab.TotalTargetAtLeastOne | src/components/KPITab.tsx:422-423 | the total target is the goal's own total, and at least 1 |
| KpiTab.CheckpointPerMonth | src/components/KPITab.tsx:402-420 | between two real months the row has one checkpoint per month, labelled in order |
| KpiTab.KeyCount | src/components/KPITab.tsx:543 | the number of error keys is 0 exactly when none is set |
| KpiTab.Validate | src/components/KPITab.tsx:532-544 | which error keys are set; `IsValid`, `KeyCount` and `KindSpecificFields` state when the form is valid |
| KpiTab.IsValid | src/components/KPITab.tsx:532-544 | the form is valid exactly when the title has a non-space character, current and target are filled, a weekly KPI has a parent and a monthly one a month when months are used |
| KpiTab.KindSpecificFields | src/components/KPITab.tsx:539-540 | a weekly KPI never needs a month and a monthly KPI never needs a parent |
| ShortVideos.FilmartBadge | src/components/ShortVideosTab.tsx:41-47 | the solo, build and no-background badges (each rendered with its class text) go exactly with the trimmed values `J - Solo`, `J - Build` and `J-Solo-(noBG)`, and every other value, a missing one included, gets the fallback badge |
| ShortVideos.ViennaToday | src/components/ShortVideosTab.tsx:51-58 | today's date rebuilt from its parts is a valid date and, for a four-digit year, today itself |
| ShortVideos.DaysUntil | src/components/ShortVideosTab.tsx:60-66 | a text that is not `dddd-dd-dd` is 0 days away |
| ShortVideos.FourDigitYear | src/components/ShortVideosTab.tsx:61 | a year from 1000 to 9999 is written with four digits |
| ShortVideos.YmdParts | src/components/ShortVideosTab.tsx:61-62 | the `YYYY-MM-DD` text of such a date splits into four, two and two digits that spell its year, month and day |
| ShortVideos.DaysUntilParts | src/components/ShortVideosTab.tsx:62-65 | a well-formed text counts the days from today to the date its parts build |
| ShortVideos.DaysUntilDate | src/components/ShortVideosTab.tsx:60-66 | the days until a date are its distance from today, or 0 once it is past |
| ShortVideos.PastGoalIsZero | src/components/ShortVideosTab.tsx:65 | a goal date today or earlier is 0 days away |
| ShortVideos.IsoDay | src/components/ShortVideosTab.tsx:71 | `toISOString().slice(0, 10)` of a date reads back as that date |
| ShortVideos.EndOfMonthDate | src/components/ShortVideosTab.tsx:70 | day 0 of the next month is the last day of this one |
| ShortVideos.EndOfCurrentMonthIso | src/components/ShortVideosTab.tsx:68-72 | the default goal date is the last day of today's month |
| ShortVideos.DefaultGoalDays | src/components/ShortVideosTab.tsx:68-87 | the default goal is the days left in the month |
| ShortVideos.FillItems | src/components/ShortVideosTab.tsx:96-97 | every status with a count gets an id list; existing lists are kept and the new ones are empty |
| ShortVideos.Normalized | src/components/ShortVideosTab.tsx:95-103 | total, counts and last update are kept, the id lists cover every counted status, and a missing badge map becomes empty |
| ShortVideos.NormalizedIdempotent | src/components/ShortVideosTab.tsx:95-103 | normalising twice is normalising once |
| ShortVideos.VideoStatsView.constructor | src/components/ShortVideosTab.tsx:84-86 | a view starts with no stats, no error and not loading, over the shared cache |
| ShortVideos.VideoStatsView.Mount | src/components/ShortVideosTab.tsx:112-116 | the first mount shows the cached statistics, and fetches exactly when there are none |
| ShortVideos.VideoStatsView.Load | src/components/ShortVideosTab.tsx:89-110 | a good answer is normalised into both the cache and the view, clearing the error; a failure sets the error and keeps what was shown; loading ends either way |
| ShortVideos.Count | src/components/ShortVideosTab.tsx:139 | a status counts only when the statistics have it |
| ShortVideos.TotalShown | src/components/ShortVideosTab.tsx:131-133 | no statistics show 0; the total is at least each allowed status's count |
| ShortVideos.OtherStatusIgnored | src/components/ShortVideosTab.tsx:20-28 | a status outside the seven allowed ones never changes the total |
| ShortVideos.CountOtherKey | src/components/ShortVideosTab.tsx:139 | a status's count depends only on its own entry |
| ShortVideos.TotalExclScheduled | src/components/ShortVideosTab.tsx:134-136 | the days left minus the scheduled videos, never negative, and 0 without statistics |
| ShortVideos.ToBeScripted | src/components/ShortVideosTab.tsx:201-203 | the days left minus every video shown, and 0 exactly when the videos shown cover the days left |
| ShortVideos.Phases | src/components/ShortVideosTab.tsx:141-145 | the boxes grow from "to write" to "to edit", which is the total without scheduled ones; each step adds at most the videos of the statuses between; done is the scheduled count |
| ShortVideos.ScriptedWithinToWrite | src/components/ShortVideosTab.tsx:141 | "to be scripted" is at most "to write", which exceeds it by at most the copywriting count |
| ShortVideos.NoStatsYet | src/components/ShortVideosTab.tsx:131-145 | before statistics arrive every box shows 0 and every day left is still to be scripted |
| NotionStats.StatusName | src/app/api/route.ts:6-13 | the status property wins over the select property, an empty or missing name reads `Unknown`, and the name is never empty |
| NotionStats.FirstText | src/app/api/route.ts:20-21 | the first text of a list, when there is one and it is not empty |
| NotionStats.CustomId | src/app/api/route.ts:15-24 | without an `ID` property the page id; otherwise one of the property's number, title, rich text or unique id, else the page id; `NumberFirst`, `TitleBeforeRichText`, `RichTextBeforeUniqueId`, `UniqueIdAfterTexts` and `NoCandidateGivesPageId` state the order |
| NotionStats.NumberFirst | src/app/api/route.ts:19 | a number in the `ID` property wins over every text |
| NotionStats.TitleBeforeRichText | src/app/api/route.ts:20-21 | without a number, a non-empty title wins over the rich text |
| NotionStats.RichTextBeforeUniqueId | src/app/api/route.ts:21-22 | without a number or a title text, a non-empty rich text wins over the unique id |
| NotionStats.UniqueIdAfterTexts | src/app/api/route.ts:22 | the unique id's number is taken when no number, title text or rich text gives a value |
| NotionStats.NoCandidateGivesPageId | src/app/api/route.ts:23 | an `ID` property none of whose four fields gives a value falls back to the page id |
| NotionStats.EditTime | src/app/api/route.ts:76 | the last-edited time, or the created time only when the last-edited one is absent |
| NotionStats.Ids | src/app/api/route.ts:72-74 | at most one id per page |
| NotionStats.Statuses | src/app/api/route.ts:70-73 | the statuses seen, each once |
| NotionStats.StatusesExactly | src/app/api/route.ts:69-70 | a status is listed exactly when some page has it |
| NotionStats.Latest | src/app/api/route.ts:46-77 | the latest edit time starts at 0 and never goes below |
| NotionStats.LatestIsMax | src/app/api/route.ts:76-77 | every page's edit time is at most the latest, which is 0 or some page's time |
| NotionStats.SumBump | src/app/api/route.ts:70-84 | raising one count raises the total by the same amount |
| NotionStats.SumFresh | src/app/api/route.ts:70-84 | a count outside the listed statuses does not touch the total |
| NotionStats.IdsSnoc | src/app/api/route.ts:72-74 | a page adds its id to its own status's list and to no other |
| NotionStats.StatusesSnoc | src/app/api/route.ts:69-73 | a page adds its status only when it is new |
| NotionStats.LatestSnoc | src/app/api/route.ts:76-77 | a page with a time raises the latest to at least that time |
| NotionStats.KeysStep | src/app/api/route.ts:70-73 | the counts and the id lists keep the same statuses |
| NotionStats.IdsAbsent | src/app/api/route.ts:73 | a status no page has has no ids |
| NotionStats.ListsStep | src/app/api/route.ts:70-74 | after a page every status's list and count are those of the pages seen |
| NotionStats.SumStep | src/app/api/route.ts:70-84 | a page raises the total by one |
| NotionStats.AddedStep | src/app/api/route.ts:68-78 | one page keeps the tally that of the pages seen |
| NotionStats.AddPages | src/app/api/route.ts:68-78 | the loop over an answer's pages leaves the tally of every page seen so far |
| NotionStats.AnsweredOneMore | src/app/api/route.ts:50-81 | one more answer adds its pages, none for missing results |
| NotionStats.FirstFailure | src/app/api/route.ts:60-63 | no failure exactly when every answer is ok |
| NotionStats.MockStats | src/app/api/route.ts:29-36 | the sample lists Draft, Editing and Published, each count the length of its id list, and the total their sum |
| NotionStats.Get | src/app/api/route.ts:26-89 | the sample when asked for; 500 without the database id or token; 502 with the first failure's text; otherwise the total, the counts and id lists per status and the latest edit time (null for 0) of every page of every answer |

## Left out

- Floating point: numbers are exact `real`/`int`. `parseFloat` and `Number` give NaN or ±Infinity as the text demands (`Numbers.ParseFloat`, `Numbers.StringToNumber`), and a division gives NaN where the code can divide by zero (`KpiBoard.Ratio`). Rounding to the nearest double and precision loss above 2^53 are not modelled.
- Revenue.ToInt: a cell whose digits spell a number above the largest double (about 1.8 × 10^308, so any of more than 309 digits), which `parseInt` reads as Infinity and the source then turns into 0, keeps its exact integer value, because numbers are exact.
- Numbers.ToNum: a cell that `parseFloat` reads as ±Infinity (the text `Infinity`) is taken as 0, because the sums are exact reals; in the source it makes that column's total infinite.
- KpiPeriods.JsNumber: a period part whose `Number` has a fraction or is infinite is taken as NaN, because the month arithmetic only uses integer parts; in the source such a part flows on as a float.
- OutreachStatus.StatusFromPct: the `null` result for a non-finite ratio is not modelled, because the ratio `sum/goal` is only formed with a goal that is not 0 and sums are finite reals.
- Host clock, time zone and locale: "now" and the Vienna "today" are parameters. `toISOString` is modelled as the `YYYY-MM-DD` text of a date for years 1000 to 9999. The mixing of UTC and local getters in `daysBetween` is taken as UTC throughout.
- Locale text: `formatGoal`, `formatPeriodLabel`, `monthShort` and `toLocaleString` output are not part of this model.
- Rendering: all JSX, dialogs, charts, `STATUS_STYLES` and the class-name strings beyond the band each colour function selects.
- Supabase reads and writes, `localStorage`, alert texts, and the goal-date preload in `ShortVideosTab.tsx` are left out. 
- DailyInputs.RemoveItem: the rollback to the snapshot when the delete fails is not modelled, because it depends on the hosted database's answer. `setStatus`'s restore of the previous item when its write fails is modelled by `DailyInputs.SetStatusRollback`.
- The Google Sheets and Notion HTTP clients are left out. A fetch is an explicit begin step and a later success or failure step carrying the payload or nothing. Notion pagination is a sequence of page answers, each either a page batch or an HTTP error.
- Promises and concurrency: an in-flight fetch is a recorded marker, and awaiting it is a separate step. Interleavings beyond that are not modelled.
- Environment variables are inputs: the configured spreadsheet ids are a map from year to id, the Notion database id and token are options, and the mock flag is a `bool`. `Number(...)` parsing of the TTL variables is modelled only as a number or not-a-number.
- Calendar.IsoWeekOf: the Outreach weeks are bucketed by the ISO week of the date itself. For dates in the years -1 to 100 the source's `isoWeekYear` can give another week, which `Calendar.IsoWeekYear` models (see Findings).
- Summarize.DateValue: only `Y-MM-DD` date strings are read. A `Y-MM-DD` text that names no calendar day (such as "2025-02-30") is read as the invalid date, where Node.js rolls it over to a later day (2025-03-02). Any other text that `new Date` would accept, and a bound given as a `Date` object, is treated as the invalid date. The plan tab sends `Y-MM-DD` bounds (src/components/PlanTab.tsx:21-22), and the payload's day dates are `YYYY-MM-DD`.
- Object keys that collide with `Object.prototype` members (a status named `constructor`) and the JavaScript ordering of integer-like keys are not modelled. Keys are map keys.
- KPI ids are integers. A weekly KPI whose parent id is `0` is read as having a parent, although `!!parentId` would treat `0` as none. A missing period is read as the empty string.
- NotionStats.Get: `lastUpdated` is kept as milliseconds since the epoch, not as its ISO text. Notion numbers are integers.
- ShortVideos: the component's cache and its state are one object (`VideoStatsView`).
- `src/server/api.ts`, `src/app/api/outreach/summary/route.ts`, `src/app/api/outreach/route.ts` and `src/app/api/sheet-link/route.ts` are thin dispatch or configuration routes and are not part of this model.

## Findings

| source | as written | input that shows it | evidently intended | confidence | as-written member | corrected member |
|---|---|---|---|---|---|---|
| src/components/KPITab.tsx:132-152 | a start month without a month part normalises to `""`; `monthsBetween` then reads year 0 and month `NaN`, so its loop test holds against any later end year while a step changes nothing, and the loop never ends | start_month `"2025"`, end_month `"2025-12"` | no months, an empty list | not executed | KpiPeriods.MonthlessStartHangs | KpiPeriods.MonthsBetween |
| src/app/api/outreach/buildPayload.ts:58-64 | `isoWeekYear` rebuilds the date and its year start with `Date.UTC`, which reads the years 0 to 99 as 1900 to 1999 | a row dated `01.01.0100` (a Friday whose Thursday is in year 99) gets week -99085 of year 99; a row dated `31.00.0100` (0099-12-31) gets week 52 of 1999 | the ISO week of the date, from 1 to 53 | not executed | Calendar.IsoWeekYearOfYear100 | Calendar.IsoWeekOf |
