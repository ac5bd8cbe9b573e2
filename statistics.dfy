/** The statistics page (scripts/statistics.js): the date-range guard before
    a request, the empty-data message, the summary figures, the per-event
    list and the data behind the two charts, all computed from the rows the
    store returns for a date range (one row per event name, most frequent
    first). */
module Statistics {
  import opened Options
  import opened Text
  import Calendar

  /** One row of the `frequency` list: an event name, how many events carry
      it, and the sum of their durations in minutes (`None` when the store
      sends null or something `parseFloat` reads as NaN). */
  datatype Row = Row(eventName: string, frequency: nat, totalMinutes: Option<int>)

  /** The JSON body of a statistics response; `frequency` is `None` when the
      field is missing. */
  datatype StatsData = StatsData(frequency: Option<seq<Row>>)

  /** `parseFloat(e.total_minutes) || 0`. */
  function MinutesOf(r: Row): int {
    if r.totalMinutes.Some? then r.totalMinutes.value else 0
  }

  /** The plausibility filter of the summary: more than zero and less than a
      year of minutes (525600 = 365 * 24 * 60). */
  predicate Plausible(m: int) {
    0 < m < 525600
  }

  // ---------------------------------------------------------------------
  // loadStatistics: the guard before the request

  /** The checks `loadStatistics` makes before it asks the store: both dates
      chosen, and the start not after the end as strings. */
  function CheckRange(startIso: Option<string>, endIso: Option<string>): (r: Result<(string, string)>)
    ensures r.Ok? <==> !Falsy(startIso) && !Falsy(endIso) && !LexLess(endIso.value, startIso.value)
    ensures r.Ok? ==> r.value == (startIso.value, endIso.value)
    ensures Falsy(startIso) || Falsy(endIso) ==> r == Err("请选择开始和结束日期")
    ensures !Falsy(startIso) && !Falsy(endIso) && LexLess(endIso.value, startIso.value) ==>
      r == Err("开始日期不能晚于结束日期")
  {
    if Falsy(startIso) || Falsy(endIso) then Err("请选择开始和结束日期")
    else if LexLess(endIso.value, startIso.value) then Err("开始日期不能晚于结束日期")
    else Ok((startIso.value, endIso.value))
  }

  /** For ISO dates the string comparison is the calendar order: a range is
      refused exactly when its end day comes before its start day. */
  lemma CheckRangeIsChronological(a: Calendar.Date, b: Calendar.Date)
    requires Calendar.Valid(a) && Calendar.Valid(b) && 0 <= a.year <= 9999 && 0 <= b.year <= 9999
    ensures CheckRange(Some(Calendar.FormatIso(a)), Some(Calendar.FormatIso(b))).Err? <==> Calendar.Before(b, a)
  {
    Calendar.IsoOrderIsChronological(b, a);
  }

  /** The request path for a range. */
  function StatisticsPath(startIso: string, endIso: string): string {
    "/api/statistics/" + startIso + "/" + endIso
  }

  /** The path names both dates: splitting it at '/' gives them back. */
  lemma StatisticsPathRoundTrip(startIso: string, endIso: string)
    requires '/' !in startIso && '/' !in endIso
    ensures Split(StatisticsPath(startIso, endIso), '/') == ["", "api", "statistics", startIso, endIso]
  {
    StatisticsPathShape(startIso, endIso);
    SplitAtSeparator("", '/', "api" + ['/'] + ("statistics" + ['/'] + (startIso + ['/'] + endIso)));
    SplitAtSeparator("api", '/', "statistics" + ['/'] + (startIso + ['/'] + endIso));
    SplitAtSeparator("statistics", '/', startIso + ['/'] + endIso);
    SplitAtSeparator(startIso, '/', endIso);
    SplitWithoutSeparator(endIso, '/');
  }

  lemma StatisticsPathShape(startIso: string, endIso: string)
    ensures StatisticsPath(startIso, endIso)
         == "" + ['/'] + ("api" + ['/'] + ("statistics" + ['/'] + (startIso + ['/'] + endIso)))
  {
  }

  // ---------------------------------------------------------------------
  // renderSummary

  /** `Math.round(p / q)`: the nearest integer, halves rounded up. */
  function RoundDiv(p: int, q: int): (r: int)
    requires q > 0
    ensures 2 * q * r - q <= 2 * p < 2 * q * r + q
  {
    (2 * p + q) / (2 * q)
  }

  /** The number of events: the sum of the frequencies. */
  function TotalEvents(rows: seq<Row>): nat
    decreases |rows|
  {
    if |rows| == 0 then 0 else TotalEvents(rows[..|rows| - 1]) + rows[|rows| - 1].frequency
  }

  /** The total duration: the sum of the plausible row totals. */
  function PlausibleMinutes(rows: seq<Row>): int
    decreases |rows|
  {
    if |rows| == 0 then 0
    else
      var m := MinutesOf(rows[|rows| - 1]);
      PlausibleMinutes(rows[..|rows| - 1]) + (if Plausible(m) then m else 0)
  }

  /** The average duration shown: total over events rounded, 0 with no events. */
  function AverageDuration(totalMinutes: int, totalEvents: nat): (r: int)
    ensures totalEvents > 0 ==>
      2 * totalEvents * r - totalEvents <= 2 * totalMinutes < 2 * totalEvents * r + totalEvents
    ensures totalEvents == 0 ==> r == 0
  {
    if totalEvents > 0 then RoundDiv(totalMinutes, totalEvents) else 0
  }

  /** The most frequent event: the first row, or `无` with no rows. */
  function MostFrequent(rows: seq<Row>): string {
    if |rows| > 0 then rows[0].eventName else "无"
  }

  /** Rows ordered by frequency, highest first, as the store sends them. */
  predicate ByFrequency(rows: seq<Row>) {
    forall k :: 0 < k < |rows| ==> rows[k].frequency <= rows[k - 1].frequency
  }

  /** With the rows ordered by frequency, the event shown as most frequent has
      a frequency no other event exceeds; it is `无` when there are no rows. */
  lemma {:induction false} MostFrequentIsMaximal(rows: seq<Row>)
    requires ByFrequency(rows)
    ensures MostFrequent(rows) == "无" <== |rows| == 0
    ensures |rows| > 0 ==>
      MostFrequent(rows) == rows[0].eventName && forall k :: 0 <= k < |rows| ==> rows[k].frequency <= rows[0].frequency
    decreases |rows|
  {
    if |rows| > 1 {
      var front := rows[..|rows| - 1];
      assert ByFrequency(front);
      MostFrequentIsMaximal(front);
      forall k | 0 <= k < |rows|
        ensures rows[k].frequency <= rows[0].frequency
      {
        if k < |rows| - 1 {
          assert rows[k] == front[k];
        } else {
          assert rows[k - 1] == front[k - 1];
        }
      }
    }
  }

  /** The summary figures. `totalHoursTenths` is the total in tenths of an
      hour (`Math.round(totalMinutes / 60 * 10)`, shown divided by ten). */
  datatype Summary = Summary(
    totalEvents: nat,
    totalMinutes: int,
    totalHoursTenths: int,
    averageMinutes: int,
    eventTypes: nat,
    mostFrequent: string)

  /** `renderSummary`: the frequency sum, the sum of the plausible durations,
      the hours, the rounded average, the number of event names and the
      first name. */
  method ComputeSummary(rows: seq<Row>) returns (s: Summary)
    ensures s.totalEvents == TotalEvents(rows)
    ensures s.totalMinutes == PlausibleMinutes(rows)
    ensures 0 <= s.totalMinutes < 525600 * |rows| || (rows == [] && s.totalMinutes == 0)
    ensures s.totalHoursTenths == RoundDiv(10 * s.totalMinutes, 60)
    ensures s.averageMinutes == AverageDuration(s.totalMinutes, s.totalEvents)
    ensures s.eventTypes == |rows|
    ensures s.mostFrequent == MostFrequent(rows)
    ensures s == SummaryFigures(rows)
  {
    var totalEvents: nat := 0;
    for i := 0 to |rows|
      invariant totalEvents == TotalEvents(rows[..i])
    {
      assert rows[..i + 1][..i] == rows[..i];
      totalEvents := totalEvents + rows[i].frequency;
    }
    var totalMinutes := 0;
    for i := 0 to |rows|
      invariant totalMinutes == PlausibleMinutes(rows[..i])
    {
      assert rows[..i + 1][..i] == rows[..i];
      var minutes := MinutesOf(rows[i]);
      if 0 < minutes < 525600 {
        totalMinutes := totalMinutes + minutes;
      }
    }
    assert rows[..|rows|] == rows;
    PlausibleMinutesBounds(rows);
    var average := if totalEvents > 0 then RoundDiv(totalMinutes, totalEvents) else 0;
    s := Summary(totalEvents, totalMinutes, RoundDiv(10 * totalMinutes, 60), average, |rows|, MostFrequent(rows));
  }

  /** The total duration is never negative, is below a year per row, and a
      row with an implausible total adds nothing to it. */
  lemma {:induction false} PlausibleMinutesBounds(rows: seq<Row>)
    ensures 0 <= PlausibleMinutes(rows)
    ensures |rows| > 0 ==> PlausibleMinutes(rows) < 525600 * |rows|
    ensures (forall k :: 0 <= k < |rows| ==> !Plausible(MinutesOf(rows[k]))) ==> PlausibleMinutes(rows) == 0
    decreases |rows|
  {
    if |rows| > 0 {
      var front := rows[..|rows| - 1];
      PlausibleMinutesBounds(front);
      if (forall k :: 0 <= k < |rows| ==> !Plausible(MinutesOf(rows[k]))) {
        assert forall k :: 0 <= k < |front| ==> rows[k] == front[k];
      }
    }
  }

  // ---------------------------------------------------------------------
  // renderEventList

  /** The duration of one list entry: `{h}h{m}m` from one hour on, `{m}m`
      below, with hours by `Math.floor` and minutes by JavaScript's `%`. */
  function DurationLabel(m: int): string {
    var hours := m / 60;
    var minutes := JsRem(m, 60);
    if hours > 0 then IntString(hours) + "h" + IntString(minutes) + "m" else IntString(minutes) + "m"
  }

  /** Reads a non-negative duration label back into minutes. */
  function ReadDurationLabel(text: string): Option<int> {
    var n := ReadNat(text);
    if n.None? then None
    else
      var (v, rest) := n.value;
      if rest == "m" then Some(v)
      else if |rest| >= 1 && rest[0] == 'h' then
        var w := ReadNat(rest[1..]);
        if w.Some? && w.value.1 == "m" && w.value.0 < 60 then Some(60 * v + w.value.0) else None
      else None
  }

  /** Non-negative totals are shown without loss. */
  lemma DurationLabelRoundTrip(m: int)
    requires m >= 0
    ensures ReadDurationLabel(DurationLabel(m)) == Some(m)
  {
    if m / 60 > 0 {
      HoursLabelRoundTrip(m);
    } else {
      MinutesLabelRoundTrip(m);
    }
  }

  /** `{h}h{m}m` reads back. */
  lemma HoursLabelRoundTrip(m: int)
    requires m >= 0 && m / 60 > 0
    ensures ReadDurationLabel(DurationLabel(m)) == Some(m)
  {
    HoursLabelShape(m);
    ReadHoursMinutesLabel(m / 60, m % 60);
  }

  /** From one hour on, the label is `{h}h{m}m` with the minutes below an hour. */
  lemma HoursLabelShape(m: int)
    requires m >= 0 && m / 60 > 0
    ensures m == 60 * (m / 60) + m % 60
    ensures DurationLabel(m) == NatString(m / 60) + ("h" + (NatString(m % 60) + "m"))
  {
    var h, mi := m / 60, m % 60;
    assert JsRem(m, 60) == mi && IntString(h) == NatString(h) && IntString(mi) == NatString(mi);
    assert NatString(h) + "h" + NatString(mi) + "m" == NatString(h) + ("h" + (NatString(mi) + "m"));
  }

  /** Reading `{h}h{m}m` for a minute count below an hour. */
  lemma ReadHoursMinutesLabel(h: nat, mi: nat)
    requires mi < 60
    ensures ReadDurationLabel(NatString(h) + ("h" + (NatString(mi) + "m"))) == Some(60 * h + mi)
  {
    var u := NatString(mi) + "m";
    assert "h" + u == ['h'] + u;
    ReadNatOfNatString(h, ['h'] + u);
    ReadNatOfNatString(mi, "m");
    ReadHoursLabelOf(NatString(h) + (['h'] + u), h, u, mi);
  }

  /** A label whose number is followed by `h` and then by minutes below an
      hour and `m` reads as hours and minutes. */
  lemma ReadHoursLabelOf(t: string, h: nat, u: string, mi: nat)
    requires ReadNat(t) == Some((h, ['h'] + u))
    requires ReadNat(u) == Some((mi, "m")) && mi < 60
    ensures ReadDurationLabel(t) == Some(60 * h + mi)
  {
    var rest := ['h'] + u;
    assert rest != "m" by {
      assert rest[0] == 'h' && "m"[0] == 'm';
    }
    assert rest[1..] == u;
  }

  /** `{m}m` reads back. */
  lemma MinutesLabelRoundTrip(m: int)
    requires m >= 0 && m / 60 == 0
    ensures ReadDurationLabel(DurationLabel(m)) == Some(m)
  {
    assert JsRem(m, 60) == m && IntString(m) == NatString(m);
    assert DurationLabel(m) == NatString(m) + "m";
    ReadNatOfNatString(m, "m");
  }

  /** A negative total never shows hours: only its remainder below one hour,
      with the minus sign. */
  lemma NegativeDurationLabel(m: int)
    requires m < 0
    ensures DurationLabel(m) == "-" + NatString((-m) % 60) + "m" || ((-m) % 60 == 0 && DurationLabel(m) == "0m")
  {
    if (-m) % 60 == 0 {
      assert DurationLabel(m) == NatString(0) + "m";
    }
  }

  /** `hsla(hue, saturation%, lightness%, alpha)` of chart slices and list dots. */
  datatype ChartColor = ChartColor(hue: real, saturation: int, lightness: int, alpha: real)

  /** `generateChartColor(index, total, alpha)` for an index of the list. */
  function GenerateChartColor(index: nat, total: nat, alpha: real): (c: ChartColor)
    requires index < total
    ensures 0.0 <= c.hue < 360.0
    ensures c.saturation in {65, 75, 85} && c.lightness in {55, 60, 65, 70} && c.alpha == alpha
  {
    // index < total keeps the hue below 360, where `% 360` changes nothing.
    HueBelowFullCircle(index, total);
    ChartColor((index * 360) as real / total as real, 65 + (index % 3) * 10, 55 + (index % 4) * 5, alpha)
  }

  lemma HueBelowFullCircle(index: nat, total: nat)
    requires index < total
    ensures 0.0 <= (index * 360) as real / total as real < 360.0
  {
    var a, c := (index * 360) as real, total as real;
    assert a < 360.0 * c;
    var x := a / c;
    assert x * c == a;
    assert (x - 360.0) * c == a - 360.0 * c < 0.0;
  }

  /** The hues spread evenly around the circle: a later index has a larger hue. */
  lemma ChartHuesIncrease(i: nat, j: nat, total: nat)
    requires i < j < total
    ensures GenerateChartColor(i, total, 1.0).hue < GenerateChartColor(j, total, 1.0).hue
  {
    var t := total as real;
    assert (i * 360) as real < (j * 360) as real;
    assert (i * 360) as real / t < (j * 360) as real / t;
  }

  /** One entry of the event list. */
  datatype ListEntry = ListEntry(color: ChartColor, eventName: string, duration: string, frequency: string)

  datatype EventListView = NoEvents(message: string) | Entries(entries: seq<ListEntry>)

  /** `renderEventList`: one entry per row, in row order. */
  function EventList(rows: seq<Row>): (v: EventListView)
    ensures |rows| == 0 <==> v == NoEvents("暂无事件数据")
    ensures v.Entries? ==> |v.entries| == |rows| && forall k :: 0 <= k < |rows| ==>
      v.entries[k].eventName == rows[k].eventName
      && v.entries[k].duration == DurationLabel(MinutesOf(rows[k]))
      && v.entries[k].frequency == IntString(rows[k].frequency) + " 次"
      && v.entries[k].color == GenerateChartColor(k, |rows|, 1.0)
  {
    if |rows| == 0 then NoEvents("暂无事件数据")
    else Entries(seq(|rows|, k requires 0 <= k < |rows| =>
      ListEntry(GenerateChartColor(k, |rows|, 1.0), rows[k].eventName,
                DurationLabel(MinutesOf(rows[k])), IntString(rows[k].frequency) + " 次")))
  }

  // ---------------------------------------------------------------------
  // prepareChartData

  datatype ChartKind = Frequency | Duration

  datatype ChartData = ChartData(labels: seq<string>, values: seq<int>, background: seq<ChartColor>, border: seq<ChartColor>)

  /** The value of a row in a chart: its frequency, or its rounded total. */
  function ChartValue(kind: ChartKind, r: Row): int {
    if kind == Frequency then r.frequency else MinutesOf(r)
  }

  function ChartValues(kind: ChartKind, rows: seq<Row>): (v: seq<int>)
    ensures |v| == |rows| && forall k :: 0 <= k < |rows| ==> v[k] == ChartValue(kind, rows[k])
  {
    seq(|rows|, k requires 0 <= k < |rows| => ChartValue(kind, rows[k]))
  }

  function Colors(total: nat, alpha: real): (v: seq<ChartColor>)
    ensures |v| == total && forall k :: 0 <= k < total ==> v[k] == GenerateChartColor(k, total, alpha)
  {
    seq(total, k requires 0 <= k < total => GenerateChartColor(k, total, alpha))
  }

  /** `prepareChartData(chartType)`: the names as labels, the frequencies or
      the durations as values, fill and border colours per slice. */
  function PrepareChartData(kind: ChartKind, rows: seq<Row>): (d: ChartData)
    ensures |d.labels| == |d.values| == |d.background| == |d.border| == |rows|
    ensures forall k :: 0 <= k < |rows| ==> d.labels[k] == rows[k].eventName
    ensures d.values == ChartValues(kind, rows)
    ensures forall k :: 0 <= k < |rows| ==>
      d.background[k].alpha == (if kind == Frequency then 1.0 else 0.7)
      && d.border[k].alpha == (if kind == Frequency then 0.8 else 1.0)
    ensures forall k :: 0 <= k < |rows| ==>
      d.background[k] == GenerateChartColor(k, |rows|, if kind == Frequency then 1.0 else 0.7)
      && d.border[k] == GenerateChartColor(k, |rows|, if kind == Frequency then 0.8 else 1.0)
  {
    var labels := seq(|rows|, k requires 0 <= k < |rows| => rows[k].eventName);
    if kind == Frequency then ChartData(labels, ChartValues(kind, rows), Colors(|rows|, 1.0), Colors(|rows|, 0.8))
    else ChartData(labels, ChartValues(kind, rows), Colors(|rows|, 0.7), Colors(|rows|, 1.0))
  }

  function Sum(v: seq<int>): int
    decreases |v|
  {
    if |v| == 0 then 0 else Sum(v[..|v| - 1]) + v[|v| - 1]
  }

  /** The frequency chart divides exactly the number of events of the summary. */
  lemma {:induction false} FrequencyChartTotal(rows: seq<Row>)
    ensures Sum(PrepareChartData(Frequency, rows).values) == TotalEvents(rows)
    decreases |rows|
  {
    if |rows| > 0 {
      var front := rows[..|rows| - 1];
      FrequencyChartTotal(front);
      assert ChartValues(Frequency, rows)[..|rows| - 1] == ChartValues(Frequency, front);
    }
  }

  /** The duration chart and the summary agree when every row total is
      plausible; the chart, unlike the summary, also shows the others. */
  lemma {:induction false} DurationChartTotal(rows: seq<Row>)
    requires forall k :: 0 <= k < |rows| ==> Plausible(MinutesOf(rows[k]))
    ensures Sum(PrepareChartData(Duration, rows).values) == PlausibleMinutes(rows)
    decreases |rows|
  {
    if |rows| > 0 {
      var front := rows[..|rows| - 1];
      assert forall k :: 0 <= k < |front| ==> front[k] == rows[k];
      DurationChartTotal(front);
      assert ChartValues(Duration, rows)[..|rows| - 1] == ChartValues(Duration, front);
    }
  }

  // ---------------------------------------------------------------------
  // StatisticsManager

  datatype ChartShape = Pie | Bar

  const NoDataMessage := "所选日期范围内暂无数据"
  const LoadFailedMessage := "加载统计数据失败，请稍后重试"

  /** A note written into a result area: the loading placeholder of
      `showLoading` or a message of `showError`. */
  datatype Notice = Loading | NoData(message: string)

  /** A chart card holds its canvas (with the chart drawn on it once data
      was rendered) until a note replaces the canvas. */
  datatype ChartCard = Canvas(drawn: Option<ChartData>) | CardNote(notice: Notice)

  /** The summary grid and the event list, which are always written together. */
  datatype Results = ResultsBlank | ResultsNote(notice: Notice) | ResultsShown(summary: Summary, list: EventListView)

  /** What the statistics page holds: the data, the four result areas and
      the last request sent. */
  datatype View = View(
    statsData: Option<StatsData>,
    frequencyCard: ChartCard,
    durationCard: ChartCard,
    results: Results,
    lastRequest: Option<string>)

  /** `showLoading` and `showError` on one chart card: they look the canvas
      up by its id and replace its parent's content, so a card whose canvas
      is already gone keeps the note it has. */
  function NoteCard(c: ChartCard, n: Notice): (r: ChartCard)
    ensures r.CardNote?
    ensures c.Canvas? ==> r == CardNote(n)
    ensures c.CardNote? ==> r == c
    ensures c.Canvas? <==> r == CardNote(n) && c != r
  {
    if c.Canvas? then CardNote(n) else c
  }

  /** `showLoading` (with `Loading`) and `showError` (with a message). */
  function ShowNote(v: View, n: Notice): View {
    v.(frequencyCard := NoteCard(v.frequencyCard, n),
       durationCard := NoteCard(v.durationCard, n),
       results := ResultsNote(n))
  }

  /** The summary of rows, as `renderSummary` computes it. */
  function SummaryFigures(rows: seq<Row>): Summary {
    Summary(TotalEvents(rows), PlausibleMinutes(rows), RoundDiv(10 * PlausibleMinutes(rows), 60),
      AverageDuration(PlausibleMinutes(rows), TotalEvents(rows)), |rows|, MostFrequent(rows))
  }

  /** Whether data holds rows to render (`renderStatistics`' guard fails). */
  predicate HasRows(d: Option<StatsData>) {
    d.Some? && d.value.frequency.Some? && d.value.frequency.value != []
  }

  /** The page shows the rows: both charts drawn on fresh canvases, the
      summary and the list. */
  predicate Shows(v: View, rows: seq<Row>) {
    v.frequencyCard == Canvas(Some(PrepareChartData(Frequency, rows)))
    && v.durationCard == Canvas(Some(PrepareChartData(Duration, rows)))
    && v.results == ResultsShown(SummaryFigures(rows), EventList(rows))
  }

  /** `renderStatistics`: the no-data message, or the rows on every area. */
  function Render(v: View): View {
    if !HasRows(v.statsData) then ShowNote(v, NoData(NoDataMessage))
    else
      var rows := v.statsData.value.frequency.value;
      v.(frequencyCard := Canvas(Some(PrepareChartData(Frequency, rows))),
         durationCard := Canvas(Some(PrepareChartData(Duration, rows))),
         results := ResultsShown(SummaryFigures(rows), EventList(rows)))
  }

  /** `loadStatistics` with the outcome of the request as a parameter
      (`None` when it fails or the status is not ok). */
  function Load(v: View, startIso: Option<string>, endIso: Option<string>, response: Option<StatsData>): View {
    var range := CheckRange(startIso, endIso);
    if range.Err? then ShowNote(v, NoData(range.message))
    else
      var w := ShowNote(v.(lastRequest := Some(StatisticsPath(range.value.0, range.value.1))), Loading);
      if response.None? then ShowNote(w, NoData(LoadFailedMessage))
      else Render(w.(statsData := response))
  }

  /** Rendering data with rows shows them, with every summary figure;
      data without rows shows the no-data message in the summary and the
      list. The data itself and the request are left alone. */
  lemma RenderShowsRows(v: View)
    ensures Render(v).statsData == v.statsData && Render(v).lastRequest == v.lastRequest
    ensures HasRows(v.statsData) ==> Shows(Render(v), v.statsData.value.frequency.value)
    ensures HasRows(v.statsData) ==>
      var s := Render(v).results.summary;
      var rows := v.statsData.value.frequency.value;
      s.totalEvents == TotalEvents(rows) && s.totalMinutes == PlausibleMinutes(rows)
      && s.totalHoursTenths == RoundDiv(10 * PlausibleMinutes(rows), 60)
      && s.averageMinutes == AverageDuration(PlausibleMinutes(rows), TotalEvents(rows))
      && s.eventTypes == |rows| && s.mostFrequent == MostFrequent(rows)
    ensures !HasRows(v.statsData) ==> Render(v).results == ResultsNote(NoData(NoDataMessage))
  {
  }

  /** A refused range shows its message and neither sends a request nor
      touches the data. */
  lemma LoadRefusedRange(v: View, startIso: Option<string>, endIso: Option<string>, response: Option<StatsData>)
    requires CheckRange(startIso, endIso).Err?
    ensures var w := Load(v, startIso, endIso, response);
      var n := NoData(CheckRange(startIso, endIso).message);
      w.results == ResultsNote(n) && w.statsData == v.statsData && w.lastRequest == v.lastRequest
      && w.frequencyCard == NoteCard(v.frequencyCard, n) && w.durationCard == NoteCard(v.durationCard, n)
  {
  }

  /** A failed request keeps the old data; the summary and the list show
      the failure message, while a chart card shows the loading placeholder
      if it still had its canvas, and its old note otherwise. */
  lemma LoadFailure(v: View, startIso: Option<string>, endIso: Option<string>)
    requires CheckRange(startIso, endIso).Ok?
    ensures var w := Load(v, startIso, endIso, None);
      w.lastRequest == Some(StatisticsPath(startIso.value, endIso.value)) && w.statsData == v.statsData
      && w.results == ResultsNote(NoData(LoadFailedMessage))
      && w.frequencyCard == NoteCard(v.frequencyCard, Loading) && w.durationCard == NoteCard(v.durationCard, Loading)
  {
  }

  /** An answer is stored; with rows the page shows them, without rows the
      summary and the list show the no-data message. */
  lemma LoadAnswer(v: View, startIso: Option<string>, endIso: Option<string>, d: StatsData)
    requires CheckRange(startIso, endIso).Ok?
    ensures var w := Load(v, startIso, endIso, Some(d));
      w.lastRequest == Some(StatisticsPath(startIso.value, endIso.value)) && w.statsData == Some(d)
    ensures HasRows(Some(d)) ==> Shows(Load(v, startIso, endIso, Some(d)), d.frequency.value)
    ensures !HasRows(Some(d)) ==>
      var w := Load(v, startIso, endIso, Some(d));
      w.results == ResultsNote(NoData(NoDataMessage))
      && w.frequencyCard == NoteCard(v.frequencyCard, Loading) && w.durationCard == NoteCard(v.durationCard, Loading)
  {
    var range := CheckRange(startIso, endIso);
    var w := ShowNote(v.(lastRequest := Some(StatisticsPath(range.value.0, range.value.1))), Loading);
    RenderShowsRows(w.(statsData := Some(d)));
  }

  /** As written: once `showLoading` has replaced the canvases, a failure or
      an answer without rows leaves both chart cards at the loading
      placeholder while the summary and the list show the message. */
  lemma LoadingNoteSticksInCharts(v: View, startIso: Option<string>, endIso: Option<string>, response: Option<StatsData>)
    requires CheckRange(startIso, endIso).Ok? && !HasRows(response)
    requires v.frequencyCard.Canvas? && v.durationCard.Canvas?
    ensures var w := Load(v, startIso, endIso, response);
      w.frequencyCard == CardNote(Loading) && w.durationCard == CardNote(Loading)
      && w.results.ResultsNote? && w.results.notice != Loading
  {
    if response.Some? {
      LoadAnswer(v, startIso, endIso, response.value);
    } else {
      LoadFailure(v, startIso, endIso);
    }
  }

  /** Corrected: writing a note into each chart container itself, whether
      or not its canvas is there. */
  function ShowNoteEverywhere(v: View, n: Notice): (w: View)
    ensures w.statsData == v.statsData && w.lastRequest == v.lastRequest
  {
    v.(frequencyCard := CardNote(n), durationCard := CardNote(n), results := ResultsNote(n))
  }

  /** Corrected: a message after the loading placeholder reaches all four
      areas, so no area is left at the placeholder. */
  lemma NoteEverywhereReplacesLoading(v: View, message: string)
    ensures var w := ShowNoteEverywhere(ShowNoteEverywhere(v, Loading), NoData(message));
      w.frequencyCard == CardNote(NoData(message)) && w.durationCard == CardNote(NoData(message))
      && w.results == ResultsNote(NoData(message))
  {
  }

  class StatisticsView {
    var statsData: Option<StatsData>
    var frequencyShape: ChartShape
    var durationShape: ChartShape
    var frequencyCard: ChartCard
    var durationCard: ChartCard
    var results: Results
    /** The path of the last statistics request sent, if any. */
    var lastRequest: Option<string>
    /** Whether the statistics page is the one shown. */
    var active: bool

    /** The page's data, areas and request. */
    function State(): View
      reads this
    {
      View(statsData, frequencyCard, durationCard, results, lastRequest)
    }

    constructor ()
      ensures statsData == None && frequencyShape == Pie && durationShape == Bar
      ensures frequencyCard == Canvas(None) && durationCard == Canvas(None)
      ensures results == ResultsBlank && lastRequest == None && !active
    {
      statsData := None;
      frequencyShape := Pie;
      durationShape := Bar;
      frequencyCard := Canvas(None);
      durationCard := Canvas(None);
      results := ResultsBlank;
      lastRequest := None;
      active := false;
    }

    /** `showLoading` (with `Loading`) and `showError` (with a message). */
    method ShowNotice(n: Notice)
      modifies this`frequencyCard, this`durationCard, this`results
      ensures State() == ShowNote(old(State()), n)
    {
      if frequencyCard.Canvas? {
        frequencyCard := CardNote(n);
      }
      if durationCard.Canvas? {
        durationCard := CardNote(n);
      }
      results := ResultsNote(n);
    }

    /** `renderStatistics`: the no-data message for absent, field-less or empty
        data; otherwise the charts, the summary and the list. */
    method RenderStatistics()
      modifies this`frequencyCard, this`durationCard, this`results
      ensures State() == Render(old(State()))
    {
      if statsData.None? || statsData.value.frequency.None? || statsData.value.frequency.value == [] {
        ShowNotice(NoData(NoDataMessage));
      } else {
        var rows := statsData.value.frequency.value;
        frequencyCard := Canvas(Some(PrepareChartData(Frequency, rows)));
        durationCard := Canvas(Some(PrepareChartData(Duration, rows)));
        var summary := ComputeSummary(rows);
        results := ResultsShown(summary, EventList(rows));
      }
    }

    /** `loadStatistics` with the dates of the two inputs and the outcome of
        the request as parameters (`None` when it fails or the status is not
        ok). */
    method LoadStatistics(startIso: Option<string>, endIso: Option<string>, response: Option<StatsData>)
      modifies this`statsData, this`frequencyCard, this`durationCard, this`results, this`lastRequest
      ensures State() == Load(old(State()), startIso, endIso, response)
    {
      var range := CheckRange(startIso, endIso);
      if range.Err? {
        ShowNotice(NoData(range.message));
        return;
      }
      lastRequest := Some(StatisticsPath(range.value.0, range.value.1));
      ShowNotice(Loading);
      if response.None? {
        ShowNotice(NoData(LoadFailedMessage));
      } else {
        statsData := response;
        RenderStatistics();
      }
    }

    /** The `pageChange` listener: showing the statistics page loads the data
        the first time only. */
    method PageChange(isStats: bool, startIso: Option<string>, endIso: Option<string>, response: Option<StatsData>)
      modifies this
      ensures active == isStats
      ensures State() == if isStats && old(statsData).None? then Load(old(State()), startIso, endIso, response) else old(State())
      ensures frequencyShape == old(frequencyShape) && durationShape == old(durationShape)
    {
      active := isStats;
      if isStats && statsData.None? {
        LoadStatistics(startIso, endIso, response);
      }
    }

    /** A chart-type button: the chosen chart changes shape, the other keeps its own. */
    method SetChartShape(kind: ChartKind, shape: ChartShape)
      modifies this`frequencyShape, this`durationShape
      ensures kind == Frequency ==> frequencyShape == shape && durationShape == old(durationShape)
      ensures kind == Duration ==> durationShape == shape && frequencyShape == old(frequencyShape)
    {
      if kind == Frequency {
        frequencyShape := shape;
      } else {
        durationShape := shape;
      }
    }
  }
}
