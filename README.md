# Daily_Web browser logic in Dafny

Daily_Web is a personal time log. Its home page shows the 24 hours of one day as capsules, and each logged event is drawn as a block across the hours it spans. It also has three other pages:

- a statistics page, which summarises the events of a date range;
- a settings page, which exports and imports data;
- a pop-up date picker, used by both of those pages.

This project models the computations inside these four browser scripts. It proves what the scripts promise about their results and their state.

- `options.dfy` (`Options`): `Option` and `Result`.
- `text.dfy` (`Text`): the string conversions the scripts rely on:
  - `String(n)` and `Number(digits)`;
  - `padStart(2, '0')`;
  - `split`;
  - JavaScript's truncating `%`;
  - string comparison;
  - `endsWith`;
  - the `!value` test on a string.
- `calendar.dfy` (`Calendar`): Gregorian dates in place of `Date` objects.
  - Month lengths, the next and previous day, and month arithmetic.
  - A day count used as an independent reference.
  - The weekday that `getDay()` reports, by Sakamoto's formula, proved equal to the day count modulo 7.
  - The display format `YYYY年MM月DD日` and the ISO format `YYYY-MM-DD`, each with a reader and a round-trip lemma.
  - A proof that ISO strings compare in calendar order.
- `hours.dfy` (`Hours`), from `scripts/hours-display.js`:
  - `parseTime`;
  - the per-hour segment loop of `renderEvent`, as a method proved equal to a layout function;
  - block offsets and widths;
  - `calculateDuration`;
  - the add-dialog defaults;
  - `generateEventColor`, whose hash loop is a method;
  - the `HoursDisplay` class, holding the events of the shown date and the blocks drawn.
- `statistics.dfy` (`Statistics`), from `scripts/statistics.js`:
  - the date-range guard;
  - the empty-data check;
  - the summary, whose accumulation loops are a method;
  - the event list;
  - chart data and colours;
  - the loading and error notes on the chart cards, the summary and the list;
  - the `StatisticsView` class.
- `settings.dfy` (`Settings`), from `scripts/settings.js`:
  - the suggested export file name;
  - the export request and its query string;
  - the `filename="..."` header capture and the download-name precedence;
  - the import preview and the Markdown stub;
  - the `SettingsForm` class.
- `datepicker.dfy` (`DatePicker`), from `scripts/date-picker.js`:
  - the 42-cell month grid, with its three runs, consecutive days, weekday columns and single selection;
  - the title;
  - month navigation;
  - the `Picker` class, whose `RenderDays` consists of the three loops of the source.

The timing and text of outside events are parameters of the methods that use them:

- the store's answer to a request;
- the outcome of `JSON.parse`;
- the current day.

## Model

| member | source | states |
|---|---|---|
| Hours.ParseTimeIgnoresSeconds | scripts/hours-display.js:417-420 | only the first two colon-separated fields decide the parsed time; a seconds field changes nothing |
| Hours.ParseTimeOfFormat | scripts/hours-display.js:417-420 | a zero-padded `HH:MM` time, with or without `:SS`, parses back to its hour and minute |
| Hours.ParseTime | scripts/hours-display.js:417-420 | definition: split at ':' and read the first two fields as numbers; properties in ParseTimeOfFormat and ParseTimeIgnoresSeconds |
| Hours.RenderEvent | scripts/hours-display.js:97-126 | the segment loop emits exactly the layout of the event while the hour grid is shown, and nothing once an error has replaced it |
| Hours.Layout | scripts/hours-display.js:105-124 | definition: the segments of the hour walk; properties in LayoutHours, SingleHourEvent, LaterHours and MultiHourEvent, and RenderEvent is proved equal to it |
| Hours.EventSegments | scripts/hours-display.js:97-104 | definition: the Layout of an event's parsed times, nothing when a time cannot be read; used by EventBlocks and HoursDisplay.RenderEvents |
| Hours.SegmentsFromInRange | scripts/hours-display.js:105-124 | every segment from a given hour on lies between that hour and the end hour and is what the loop body prescribes for its hour |
| Hours.SegmentsFromIncreasing | scripts/hours-display.js:105-124 | segments from an hour on come in strictly increasing hour order, none before that hour, so at most one per hour |
| Hours.LayoutHours | scripts/hours-display.js:105-107 | segments occur only in capsule hours from the start hour to the end hour, in increasing order; an end hour before the start hour gives no segment |
| Hours.SingleHourEvent | scripts/hours-display.js:105-124 | an event within one hour is one segment in that hour with the event's own start and end minutes |
| Hours.LaterHours | scripts/hours-display.js:109-122 | after the start hour, each hour up to the end hour gets 0..59, the end hour 0..endMinute; the end hour is dropped when the end minute is 0 |
| Hours.MultiHourEvent | scripts/hours-display.js:109-122 | a multi-hour event has one more segment than hours spanned unless it ends on the hour; the first is startMinute..59, interior ones 0..59, the last 0..endMinute |
| Hours.EightToTen | scripts/hours-display.js:119-122 | 08:00-10:00 is drawn in hours 8 and 9 only |
| Hours.BlocksFitCapsules | scripts/hours-display.js:133-135 | for well-formed times in order, every block has a non-negative offset and a positive width and ends within its capsule |
| Hours.BlockLeft | scripts/hours-display.js:134 | definition: the start minute as a percentage of the hour; properties in BlocksFitCapsules, SegmentFits and LaterHoursCovered |
| Hours.BlockWidth | scripts/hours-display.js:135 | definition: the inclusive minute span as a percentage of the hour; properties in BlocksFitCapsules, SegmentFits and InvertedSingleHourEvent |
| Hours.SegmentFits | scripts/hours-display.js:134-135 | a block for minutes s..e with 0 <= s <= e < 60 lies inside 0..100 percent |
| Hours.InvertedSingleHourEvent | scripts/hours-display.js:134-135 | a same-hour event whose end minute is before its start minute is still drawn, with zero or negative width |
| Hours.LaterHoursCovered | scripts/hours-display.js:109-122 | the blocks after the start hour cover 60 minutes per full hour plus endMinute+1 in the end hour, or none there when it ends on the hour |
| Hours.CoveredMinutesMatchDuration | scripts/hours-display.js:105-135 | the blocks of an event cover its duration plus one minute (ends are inclusive), or exactly its duration when it ends exactly on a later hour |
| Hours.DurationIsModuloDay | scripts/hours-display.js:426-430 | the duration of two valid times is end minus start modulo one day, in 0..1439 |
| Hours.CalculateDuration | scripts/hours-display.js:422-440 | definition: the duration text of two parsed times, `NaN分钟` when a time cannot be read; properties in DurationIsModuloDay and DurationTextRoundTrip |
| Hours.DurationTextRoundTrip | scripts/hours-display.js:432-439 | the `H小时M分钟` / `H小时` / `M分钟` text of a non-negative duration reads back as that duration |
| Hours.DefaultTimesParse | scripts/hours-display.js:234-236 | the add dialog proposes `hh:00` to `(h+1):00`, or to `23:59` for hour 23, and these parse as such |
| Hours.DefaultTimes | scripts/hours-display.js:234-235 | definition: the proposed start and end texts; properties in DefaultTimesParse and DefaultEventFillsItsHour |
| Hours.DefaultEventFillsItsHour | scripts/hours-display.js:234-236 | an event saved with the proposed times fills exactly its own capsule, 0..59, and lasts one hour (59 minutes for hour 23) |
| Hours.ToInt32 | scripts/hours-display.js:221 | the 32-bit conversion of the shift gives a signed 32-bit value congruent to its input modulo 2^32 |
| Hours.GenerateEventColor | scripts/hours-display.js:217-231 | the hash loop computes the name hash; the hue is its absolute value mod 360, in 0..359; saturation is in {30,40,50,60} and lightness in {60,70,80} by hour |
| Hours.HoursDisplay.constructor | scripts/hours-display.js:3-15 | the manager starts with no date, no events, the grid shown and no blocks |
| Hours.HoursDisplay.RenderEvents | scripts/hours-display.js:88-95 | after clearing, the blocks drawn are those of all events in order, or none with the grid replaced |
| Hours.HoursDisplay.LoadEvents | scripts/hours-display.js:75-85 | the date is recorded; a list answer replaces the events and redraws; a failure keeps the events, replaces the grid by the error message and leaves no blocks; no blocks ever come back afterwards |
| Hours.HoursDisplay.AddEventDraft | scripts/hours-display.js:234-245 | the dialog opens on the current date with the proposed times and empty name and notes |
| Statistics.CheckRange | scripts/statistics.js:196-207 | a range passes iff both dates are present and non-empty and the start is not after the end as strings; otherwise the missing-date or the order message |
| Statistics.CheckRangeIsChronological | scripts/statistics.js:204-207 | for ISO dates the guard refuses a range exactly when the end day is before the start day |
| Statistics.StatisticsPathRoundTrip | scripts/statistics.js:212 | the request path splits at '/' back into both dates |
| Statistics.RoundDiv | scripts/statistics.js:428 | `Math.round(p / q)` is the integer nearest to p/q, halves rounded up |
| Statistics.AverageDuration | scripts/statistics.js:428 | the average is total over events to the nearest integer, or 0 with no events |
| Statistics.MostFrequentIsMaximal | scripts/statistics.js:429 | with rows ordered by frequency, the name shown as most frequent has a frequency no row exceeds; `无` when there are no rows |
| Statistics.ComputeSummary | scripts/statistics.js:413-429 | total events is the frequency sum; total minutes the sum of plausible totals, non-negative and below a year per row; tenths of hours and average by rounding; event types the row count; most frequent the first name |
| Statistics.PlausibleMinutesBounds | scripts/statistics.js:418-425 | the filtered total is never negative, is below 525600 per row, and is 0 when no row is plausible |
| Statistics.DurationLabelRoundTrip | scripts/statistics.js:466-469 | the `{h}h{m}m` / `{m}m` label of a non-negative total reads back as that total |
| Statistics.DurationLabel | scripts/statistics.js:466-469 | definition: `{h}h{m}m` from one hour on, `{m}m` below, with floor and JavaScript's remainder; properties in DurationLabelRoundTrip and NegativeDurationLabel |
| Statistics.NegativeDurationLabel | scripts/statistics.js:466-469 | a negative total shows no hours, only its remainder below an hour with a minus sign |
| Statistics.GenerateChartColor | scripts/statistics.js:405-411 | hue in [0,360), saturation in {65,75,85}, lightness in {55,60,65,70}, alpha as given |
| Statistics.HueBelowFullCircle | scripts/statistics.js:406 | index·360/total stays below 360 for an index of the list |
| Statistics.ChartHuesIncrease | scripts/statistics.js:406 | later rows get strictly larger hues, so no two slices share one |
| Statistics.EventList | scripts/statistics.js:456-484 | no rows give the no-events message; otherwise one entry per row, in order, with its name, duration label, count and colour |
| Statistics.PrepareChartData | scripts/statistics.js:326-353 | labels, values and colours line up with the rows; values are the frequencies or the totals (0 by default); row k's fill and border are the k-th chart colour with the chart's alphas, so by ChartHuesIncrease no two slices share a hue |
| Statistics.FrequencyChartTotal | scripts/statistics.js:326-338 | the frequency chart values add up to the summary's total events |
| Statistics.DurationChartTotal | scripts/statistics.js:339-353 | with every row total plausible, the duration chart adds up to the summary's total minutes |
| Statistics.StatisticsView.constructor | scripts/statistics.js:3-14 | no data yet, a pie frequency chart and a bar duration chart, both canvases empty, the summary and the list blank |
| Statistics.NoteCard | scripts/statistics.js:227-260 | a note replaces a chart card exactly when the card still holds its canvas; a card already showing a note keeps it |
| Statistics.ShowNote | scripts/statistics.js:227-267 | definition: a note in the summary and the list, and in each chart card through NoteCard; properties in LoadRefusedRange, LoadFailure and LoadingNoteSticksInCharts |
| Statistics.StatisticsView.ShowNotice | scripts/statistics.js:227-267 | the new page is ShowNote of the old: the summary and the list show the note, a chart card only while it has its canvas |
| Statistics.RenderShowsRows | scripts/statistics.js:269-294 | data with rows shows both charts on fresh canvases, the list, and every summary figure including the tenths of hours; data without rows shows the no-data message; data and request unchanged |
| Statistics.Render | scripts/statistics.js:269-294 | definition: the no-data note, or both charts, the summary and the list of the rows; properties in RenderShowsRows |
| Statistics.Load | scripts/statistics.js:186-225 | definition: the guard, the loading note, then the failure note or the render of the answer; properties in LoadRefusedRange, LoadFailure and LoadAnswer |
| Statistics.StatisticsView.RenderStatistics | scripts/statistics.js:269-282 | the new page is Render of the old, so by RenderShowsRows data with rows shows both charts, the list and every summary figure, and data without rows the no-data message |
| Statistics.LoadRefusedRange | scripts/statistics.js:196-207 | a refused range shows its message and keeps the data and the last request |
| Statistics.LoadFailure | scripts/statistics.js:209-224 | a failed request is sent for the range's path, keeps the old data, shows the failure message in the summary and the list, and leaves each chart card as `showLoading` left it |
| Statistics.LoadAnswer | scripts/statistics.js:209-219 | an answer is stored after the range's path is requested; with rows the page shows them, without rows the no-data message |
| Statistics.LoadingNoteSticksInCharts | scripts/statistics.js:227-260 | from a page with both canvases, a failed or empty load leaves both chart cards at the loading placeholder while the summary shows a message |
| Statistics.NoteEverywhereReplacesLoading | scripts/statistics.js:248-260 | writing notes into every area, a message after the placeholder reaches all four areas |
| Statistics.ShowNoteEverywhere | scripts/statistics.js:248-260 | the corrected note writer keeps the data and the last request; its effect on the areas is in NoteEverywhereReplacesLoading |
| Statistics.StatisticsView.LoadStatistics | scripts/statistics.js:186-225 | the new page is Load of the old: by the Load lemmas, a refused range shows its message and sends nothing; otherwise the range's path is requested, a failure keeps the old data and shows the failure message, an answer is stored and rendered |
| Statistics.StatisticsView.PageChange | scripts/statistics.js:136-148 | showing the page loads exactly as LoadStatistics does when no data is loaded, and otherwise changes nothing of the page; the shown flag follows the page |
| Statistics.StatisticsView.SetChartShape | scripts/statistics.js:119-131 | a chart-type button changes the shape of its own chart only |
| Settings.ExportFilename | scripts/settings.js:200-221 | `daily_record_all`, `daily_record_{start}_to_{end}` or `daily_record_custom`, always with the format's extension |
| Settings.CustomFilenameFields | scripts/settings.js:213-214 | a dated name holds both ISO dates and the extension at fixed places |
| Settings.CustomFilenameInjective | scripts/settings.js:213-214 | different date ranges or formats never give the same dated name |
| Settings.FilenameCasesDiffer | scripts/settings.js:207-218 | the three cases give three different names |
| Settings.QueryStringSplits | scripts/settings.js:245-246 | the query splits at '&' back into its `key=value` pairs, in order |
| Settings.QueryString | scripts/settings.js:230-246 | definition: the pairs as `key=value` joined by `&`; properties in QueryStringSplits |
| Settings.ExportQueryFields | scripts/settings.js:232-246 | a custom range sends startDate, endDate, format in that order; all data sends format alone; format is always last |
| Settings.NonQuoteSpan | scripts/settings.js:256 | the `[^"]+` run stops at the first double quote |
| Settings.MatchAt | scripts/settings.js:256 | a match at a position is `filename="`, a non-empty quote-free group, and a closing quote |
| Settings.CaptureFromIsLeftmost | scripts/settings.js:256 | the capture, when there is one, is the group of the leftmost match; without one no position matches |
| Settings.CaptureOfAttachmentHeader | scripts/settings.js:254-259 | the header `attachment; filename="<name>"` yields the name |
| Settings.FilenameCapture | scripts/settings.js:256-258 | definition: the capture of the leftmost match from the start; properties in CaptureFromIsLeftmost and CaptureOfAttachmentHeader |
| Settings.DownloadName | scripts/settings.js:254-265 | the typed name first, else the header's name, else the placeholder |
| Settings.HeaderNameBeatsPlaceholder | scripts/settings.js:254-265 | with nothing typed the header's name is used, not the placeholder |
| Settings.DownloadNameNonEmpty | scripts/settings.js:262-265 | a non-empty placeholder guarantees a non-empty download name |
| Settings.PreviewOf | scripts/settings.js:330-338 | the count of all events, the first five at most in order, and an ellipsis exactly when some are not shown |
| Settings.PreviewFile | scripts/settings.js:316-346 | definition: `.json` through the parse outcome (the error text on failure), `.md` through the Markdown stub, other names as no events; properties in PreviewOf, MarkdownPreviewIsEmpty and SmallJsonPreviewIsComplete |
| Settings.ParseMarkdownContent | scripts/settings.js:348-357 | definition: the stub returns no events; properties in MarkdownPreviewIsEmpty |
| Settings.MarkdownPreviewIsEmpty | scripts/settings.js:324-357 | a `.md` file is always previewed as zero events, since the Markdown reader returns no events |
| Settings.SmallJsonPreviewIsComplete | scripts/settings.js:324-338 | a JSON file with at most five events is listed in full without ellipsis |
| Settings.SettingsForm.constructor | scripts/settings.js:43-75 | all data, Markdown, no dates, nothing typed and the markup's placeholder text |
| Settings.SettingsForm.UpdateExportFilename | scripts/settings.js:200-221 | the placeholder becomes the suggested name for the current choices |
| Settings.SettingsForm.SelectRange | scripts/settings.js:134-143 | the range changes and the suggestion follows it |
| Settings.SettingsForm.SelectFormat | scripts/settings.js:156-160 | the format changes and the suggestion follows it |
| Settings.SettingsForm.TypeFilename | scripts/settings.js:73-76 | the typed name is what the user entered |
| Settings.SettingsForm.PickStartDate | scripts/settings.js:178-187 | the start input shows the display date, stores the picked local day as ISO text (the corrected form of the Finding on `toISOString`), and the suggestion follows |
| Settings.SettingsForm.PickEndDate | scripts/settings.js:178-187 | the same for the end input (the corrected form of the Finding on `toISOString`) |
| Settings.SettingsForm.ExportData | scripts/settings.js:223-283 | a custom range missing a date aborts with its alert before any request; otherwise the URL carries the parameters in order; a failed request ends in the failure alert; a success downloads under the preferred name |
| Settings.SettingsForm.HandleFileSelect | scripts/settings.js:285-305 | without a file import is disabled; with one it is enabled and the file previewed |
| Settings.CustomExportScenario | scripts/settings.js:200-283 | choosing a custom range, a format and two dates, then exporting, downloads `daily_record_{start}_to_{end}.{ext}` when the server names no file |
| Calendar.DisplayDateRoundTrip | scripts/settings.js:193-198 | `YYYY年MM月DD日` with padded month and day reads back as the date |
| Calendar.FormatDisplayDate | scripts/settings.js:193-198 | definition: `YYYY年MM月DD日` with padded month and day; properties in DisplayDateRoundTrip |
| Calendar.IsoRoundTrip | scripts/settings.js:189-191 | the ISO text of a date reads back as that date |
| Calendar.FormatIso | scripts/settings.js:189-191 | the ISO text of the local day, the corrected form of `formatDate`, is 10 characters long; properties in IsoRoundTrip and IsoOrderIsChronological |
| Calendar.IsoOrderIsChronological | scripts/statistics.js:204 | ISO strings compare as strings in calendar order |
| Calendar.IsoOfLocalMidnightShiftsDay | scripts/statistics.js:175-177 | east of UTC, `toISOString` of the picked local midnight names the day before |
| Calendar.PickedInUtcPlus8 | scripts/settings.js:189-191 | 15 January 2024 picked in UTC+8 is stored as 2024-01-14 |
| Calendar.DaysInMonth | scripts/date-picker.js:121 | a month has 28 to 31 days |
| Calendar.PrevMonth | scripts/date-picker.js:128 | the month before, whose next month is the month itself |
| Calendar.ShiftMonth | scripts/date-picker.js:202 | the month `delta` months away, by month count |
| Calendar.DayNumberOfNextMonth | scripts/date-picker.js:139-145 | the first of the next month is the month's length after the first of this month |
| Calendar.DayNumberOfNextDay | scripts/date-picker.js:133-136 | the next day is one day later by the day count |
| Calendar.WeekdayByDayNumber | scripts/date-picker.js:124 | the weekday of a date is its day count plus 6 modulo 7, Sunday 0 |
| Calendar.WeekdayOfNextDay | scripts/date-picker.js:124 | the next day's weekday is one later modulo 7 |
| DatePicker.Grid | scripts/date-picker.js:112-146 | 42 cells, each the grid cell of its index |
| DatePicker.GridDate | scripts/date-picker.js:124-145 | definition: the date of cell k, counting from the first weekday of the month; properties in GridRuns, GridDatesValid, GridIsConsecutive, GridColumnsAreWeekdays and GridDatesDistinct |
| DatePicker.GridRuns | scripts/date-picker.js:124-145 | the previous month's last days, as many as the 1st's weekday and ending on its last day; then days 1..n; then days 1.. of the next month, 5 to 14 of them; only the middle run belongs to the month |
| DatePicker.GridDatesValid | scripts/date-picker.js:127-145 | every cell holds a real date |
| DatePicker.GridIsConsecutive | scripts/date-picker.js:127-145 | cell k is k days after the first cell |
| DatePicker.GridColumnsAreWeekdays | scripts/date-picker.js:124-145 | cell k falls on weekday k mod 7, matching the Sunday-first header |
| DatePicker.GridDatesDistinct | scripts/date-picker.js:127-145 | no date appears twice in the grid |
| DatePicker.SelectedAtMostOnce | scripts/date-picker.js:164-167 | at most one cell is marked selected |
| DatePicker.SelectedShownInItsMonth | scripts/date-picker.js:133-167 | a selected date of the viewed month is marked in its own cell of the month run |
| DatePicker.MonthTitleNamesMonth | scripts/date-picker.js:105-110 | the title `{year}年{month}月` reads back as year and month |
| DatePicker.MonthTitle | scripts/date-picker.js:105-110 | definition: `{year}年` followed by the month name `{m}月`; properties in MonthTitleNamesMonth |
| DatePicker.SetMonthAsWritten | scripts/date-picker.js:201-204 | `setMonth` as written, keeping the day of the month, always lands on a real date |
| DatePicker.SetMonthOverflowSkipsMonth | scripts/date-picker.js:202 | when the day is missing in the target month, the view lands one month too far |
| DatePicker.NextMonthFromJanuary31 | scripts/date-picker.js:202 | next month from 31 January 2025 shows 3 March 2025 |
| DatePicker.ShiftViewDate | scripts/date-picker.js:201-204 | the view moves exactly `delta` months, keeping the day or taking the month's last day |
| DatePicker.ShiftViewDateReturns | scripts/date-picker.js:201-204 | forward and back by the same count returns to the viewed month |
| DatePicker.Picker.constructor | scripts/date-picker.js:3-17 | the picker opens with the initial date selected and viewed, its grid drawn |
| DatePicker.Picker.Render | scripts/date-picker.js:100-110 | the title and grid of the viewed month |
| DatePicker.Picker.RenderDays | scripts/date-picker.js:112-146 | the three loops build exactly the month's 42-cell grid with other-month, today and selected marks |
| DatePicker.Picker.SelectDate | scripts/date-picker.js:177-192 | the clicked date becomes selected; another month's date also becomes the view; otherwise the view stays and the marks move to the clicked cell |
| DatePicker.Picker.SelectToday | scripts/date-picker.js:194-199 | today becomes selected and viewed |
| DatePicker.Picker.ChangeMonth | scripts/date-picker.js:201-204 | the view moves exactly `delta` months; the selection stays |
| DatePicker.Picker.Confirm | scripts/date-picker.js:206-211 | the selection is passed to the callback once, if there is one, then the picker closes |
| DatePicker.Picker.Close | scripts/date-picker.js:213-223 | the picker is closed |

## Findings

| source | as written | input that shows it | evidently intended | confidence | as-written member | corrected member |
|---|---|---|---|---|---|---|
| scripts/date-picker.js:201-204 | `setMonth(getMonth() + delta)` keeps the day of the month, so a day missing in the target month rolls into the month after | view 31 January 2025 and press the next-month button: the view shows March 2025 (3 March) | the view moves exactly `delta` months | not executed | DatePicker.NextMonthFromJanuary31 | DatePicker.ShiftViewDate |
| scripts/settings.js:189-191 | `toISOString().split('T')[0]` prints the UTC day of the picked local-midnight date (the same code is at scripts/statistics.js:175-177) | pick 15 January 2024 in UTC+8: the input shows 2024年01月15日 but stores 2024-01-14, used for the file name, the export and the statistics range | store the picked local day | not executed | Calendar.PickedInUtcPlus8 | Calendar.IsoRoundTrip |
| scripts/statistics.js:248-260 | `showError` writes a chart card only while its canvas is there, and `showLoading` has just replaced both canvases with the loading placeholder | pick a valid range whose request fails (or whose answer has no rows): the summary and the list show the message, both chart cards keep 加载中... until a later load renders rows | every area shows the message | not executed | Statistics.LoadingNoteSticksInCharts | Statistics.NoteEverywhereReplacesLoading |

## Left out

- DOM construction, listeners, tooltips, Chart.js configuration, and the loading and fade-out timers are presentation only. They are not modelled.
- Event saving, deleting, template saving and importing uploads are network calls with no logic to check in the page. They are not modelled (`showEventDialog`, `saveEvent`, `deleteEvent`, `saveEventTemplate`, `importData`, and the edit dialog).
- The store, the server and its SQL are not part of this model. The statistics rows come in as given, ordered by frequency, with integer minutes.
- Hours.ParseTime: only decimal-digit fields are read as numbers, and the empty field reads as 0. Other syntaxes that `Number` accepts (spaces, signs, fractions, hexadecimal, exponents) read as not a number.
- Hours.EventSegments: an event with any unreadable field draws nothing. In the source, unreadable hours draw nothing, but unreadable minutes with readable hours draw blocks with NaN geometry.
- Hours.GenerateEventColor: the hash uses exact integers. The source's doubles agree only while the hash stays below 2^53, which holds for names of fewer than about four million characters.
- Hours.HoursDisplay.LoadEvents: a list whose rendering fails is modelled as a failed load. The source also keeps that list as its events.
- Statistics.ComputeSummary: the hours total is rounded in exact arithmetic. The source computes `totalMinutes / 60 * 10` in floating point, which can round a tie differently.
- Statistics.GenerateChartColor: the hue is an exact real. Its floating-point value and its printed form are not modelled.
- Statistics.StatisticsView.LoadStatistics: an answer that is stored and then fails to render counts as rendered. The class keeps the chart cards as the source does, so after a failure or an empty answer they stay at the loading placeholder; the corrected `Statistics.ShowNoteEverywhere` of the Finding is not used by the class.
- Hours.GenerateEventColor: Dafny characters are Unicode code points, while `charCodeAt` and `length` walk UTF-16 code units. A name with a character outside the Basic Multilingual Plane (an emoji, say) hashes differently from the source, though the hue, saturation and lightness bands still hold.
- Hours.BlockLeft: block offsets are exact reals. The source computes `(m / 60) * 100` in floating point, which is not modelled.
- Hours.BlockWidth: block widths are exact reals, for the same reason.
- Settings.SettingsForm.PickStartDate: stores the picked local day (`Calendar.FormatIso`), the corrected form of the Finding on `toISOString`. The source stores the UTC day of local midnight, which is the day before east of UTC. That form is `Calendar.IsoOfLocalMidnightAsWritten`, and only the Finding's lemmas use it.
- Settings.SettingsForm.PickEndDate: stores the picked local day in the same way as PickStartDate.
- Default date ranges (`setDefaultDateRange`) and the picker's initial date read the clock or parse an ISO string as UTC. The initial and current dates are parameters instead.
- `formatFileSize` uses floating-point logarithms and is not modelled.
- Settings.QueryString: URL encoding is not modelled. ISO dates and format names need none.
- Settings.PreviewFile: `JSON.parse` is a parameter, `None` when it throws or gives a value other than a list. This matches the source, where a string, an object or a number also ends in the error text because `slice(0, 5).map` throws. A list whose items are not event objects, which the source lists with `undefined` fields, is not modelled.
- DatePicker.Picker.ChangeMonth: moves the view by exactly `delta` months with the day clamped (`DatePicker.ShiftViewDate`, the corrected form of the Finding on `setMonth`). The source keeps the day and rolls a missing day into the month after (`DatePicker.SetMonthAsWritten`).
- DatePicker.Picker: the current day is read once, where the source reads the clock for every button. The overlay's removal and the Escape listener outliving the picker are not modelled.
- Calendar: `new Date(y, m, d)` maps years 0..99 to 1900..1999; this mapping is not modelled. ISO text covers the years 0..9999.
- `scripts/navbar.js`, `scripts/main.js` and `scripts/background.js` are not part of this model.
