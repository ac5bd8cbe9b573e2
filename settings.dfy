/** The settings page (scripts/settings.js): the suggested export file name,
    the export request and the choice of the download name, and the import
    preview. */
module Settings {
  import opened Options
  import opened Text
  import Calendar

  datatype RangeType = All | Custom

  datatype Format = Md | Json

  /** The value of the checked format radio button, also the file extension. */
  function Extension(f: Format): string {
    if f == Md then "md" else "json"
  }

  const ApiBaseUrl: string := "http://localhost:3000"

  /** The placeholder the file-name input carries in the page markup, until
      the first call of `updateExportFilename`. */
  const InitialPlaceholder: string := "将根据日期范围自动生成"

  // ---------------------------------------------------------------------
  // updateExportFilename

  /** The suggested file name: all data, a custom range with both dates, or a
      custom range still missing a date. */
  function ExportFilename(range: RangeType, format: Format, startIso: Option<string>, endIso: Option<string>): (name: string)
    ensures EndsWith(name, "." + Extension(format))
  {
    var suffix := "." + Extension(format);
    if range == All then "daily_record_all" + suffix
    else if !Falsy(startIso) && !Falsy(endIso) then "daily_record_" + startIso.value + "_to_" + endIso.value + suffix
    else "daily_record_custom" + suffix
  }

  /** A dated file name carries both ISO dates and the format at fixed places. */
  lemma CustomFilenameFields(s: string, e: string, f: Format)
    requires |s| == 10 && |e| == 10
    ensures var name := ExportFilename(Custom, f, Some(s), Some(e));
      name[13..23] == s && name[27..37] == e && name[38..] == Extension(f)
  {
    var name := ExportFilename(Custom, f, Some(s), Some(e));
    assert name == "daily_record_" + s + "_to_" + e + "." + Extension(f);
  }

  /** Different ranges or formats never share a dated file name. */
  lemma CustomFilenameInjective(s: string, e: string, f: Format, s': string, e': string, f': Format)
    requires |s| == 10 && |e| == 10 && |s'| == 10 && |e'| == 10
    requires ExportFilename(Custom, f, Some(s), Some(e)) == ExportFilename(Custom, f', Some(s'), Some(e'))
    ensures s == s' && e == e' && f == f'
  {
    CustomFilenameFields(s, e, f);
    CustomFilenameFields(s', e', f');
  }

  /** The three cases give different names when the start date begins with a
      digit, as an ISO date does. */
  lemma FilenameCasesDiffer(f: Format, s: string, e: string)
    requires |s| == 10 && |e| == 10 && IsDigit(s[0])
    ensures var all, dated, partial :=
      ExportFilename(All, f, None, None), ExportFilename(Custom, f, Some(s), Some(e)), ExportFilename(Custom, f, None, None);
      all != dated && dated != partial && all != partial
  {
    var all, dated, partial :=
      ExportFilename(All, f, None, None), ExportFilename(Custom, f, Some(s), Some(e)), ExportFilename(Custom, f, None, None);
    assert all[13] == 'a' && partial[13] == 'c';
    assert dated[13] == s[0];
  }

  // ---------------------------------------------------------------------
  // exportData: the request

  /** `URLSearchParams.toString()` for values that need no escaping:
      `key=value` pairs joined by '&'. */
  function QueryString(params: seq<(string, string)>): string
    decreases |params|
  {
    if |params| == 0 then ""
    else if |params| == 1 then params[0].0 + "=" + params[0].1
    else params[0].0 + "=" + params[0].1 + "&" + QueryString(params[1..])
  }

  /** The query splits back into its pairs at '&' when no key or value
      contains one. */
  lemma {:induction false} QueryStringSplits(params: seq<(string, string)>)
    requires |params| >= 1
    requires forall k :: 0 <= k < |params| ==> '&' !in params[k].0 && '&' !in params[k].1
    ensures Split(QueryString(params), '&') == seq(|params|, k requires 0 <= k < |params| => params[k].0 + "=" + params[k].1)
    decreases |params|
  {
    var pair := params[0].0 + "=" + params[0].1;
    assert '&' !in pair by {
      assert forall c :: c in pair ==> c in params[0].0 || c == '=' || c in params[0].1;
    }
    if |params| == 1 {
      SplitWithoutSeparator(pair, '&');
    } else {
      QueryStringSplits(params[1..]);
      assert QueryString(params) == pair + ['&'] + QueryString(params[1..]);
      SplitAtSeparator(pair, '&', QueryString(params[1..]));
    }
  }

  /** The export dates and format as the server reads them back: custom
      ranges send startDate, endDate and format, all data sends format alone;
      format is always the last field. */
  lemma ExportQueryFields(range: RangeType, format: Format, s: string, e: string)
    requires '&' !in s && '&' !in e
    ensures range == Custom ==>
      Split(QueryString([("startDate", s), ("endDate", e), ("format", Extension(format))]), '&')
        == ["startDate=" + s, "endDate=" + e, "format=" + Extension(format)]
    ensures range == All ==>
      Split(QueryString([("format", Extension(format))]), '&') == ["format=" + Extension(format)]
  {
    if range == Custom {
      CustomQueryFields(s, e, Extension(format));
    } else {
      AllQueryFields(Extension(format));
    }
  }

  lemma CustomQueryFields(s: string, e: string, ext: string)
    requires '&' !in s && '&' !in e && '&' !in ext
    ensures Split(QueryString([("startDate", s), ("endDate", e), ("format", ext)]), '&')
         == ["startDate=" + s, "endDate=" + e, "format=" + ext]
  {
    var ps := [("startDate", s), ("endDate", e), ("format", ext)];
    QueryStringSplits(ps);
    var got := seq(|ps|, k requires 0 <= k < |ps| => ps[k].0 + "=" + ps[k].1);
    assert |got| == 3 && got[0] == "startDate=" + s && got[1] == "endDate=" + e && got[2] == "format=" + ext;
    assert got == ["startDate=" + s, "endDate=" + e, "format=" + ext];
  }

  lemma AllQueryFields(ext: string)
    requires '&' !in ext
    ensures Split(QueryString([("format", ext)]), '&') == ["format=" + ext]
  {
    var ps := [("format", ext)];
    QueryStringSplits(ps);
    var got := seq(|ps|, k requires 0 <= k < |ps| => ps[k].0 + "=" + ps[k].1);
    assert |got| == 1 && got[0] == "format=" + ext;
    assert got == ["format=" + ext];
  }

  // ---------------------------------------------------------------------
  // exportData: the download name

  const FilenameKey: string := "filename=\""

  /** The number of leading characters of `s` that are not a double quote. */
  function NonQuoteSpan(s: string): (k: nat)
    ensures k <= |s| && '\"' !in s[..k]
    ensures k < |s| ==> s[k] == '\"'
  {
    if |s| == 0 || s[0] == '\"' then 0
    else
      var k := 1 + NonQuoteSpan(s[1..]);
      assert s[..k] == [s[0]] + s[1..][..k - 1];
      k
  }

  lemma {:induction false} NonQuoteSpanOf(n: string, tail: string)
    requires '\"' !in n
    ensures NonQuoteSpan(n + "\"" + tail) == |n|
    decreases |n|
  {
    if |n| > 0 {
      assert (n + "\"" + tail)[1..] == n[1..] + "\"" + tail;
      NonQuoteSpanOf(n[1..], tail);
    }
  }

  /** A match of `/filename="([^"]+)"/` starting at position `i`, and its group. */
  function MatchAt(cd: string, i: nat): (r: Option<string>)
    ensures r.Some? ==>
      && i + 10 + |r.value| < |cd| && cd[i..i + 10] == FilenameKey
      && cd[i + 10..i + 10 + |r.value|] == r.value && cd[i + 10 + |r.value|] == '\"'
      && r.value != "" && '\"' !in r.value
  {
    if i + 10 <= |cd| && cd[i..i + 10] == FilenameKey then
      var rest := cd[i + 10..];
      var k := NonQuoteSpan(rest);
      if 0 < k < |rest| then Some(rest[..k]) else None
    else None
  }

  /** The leftmost match at position `i` or later. */
  function CaptureFrom(cd: string, i: nat): Option<string>
    decreases |cd| - i
  {
    if i >= |cd| then None
    else if MatchAt(cd, i).Some? then MatchAt(cd, i)
    else CaptureFrom(cd, i + 1)
  }

  /** `contentDisposition.match(/filename="([^"]+)"/)[1]`, `None` without a match. */
  function FilenameCapture(cd: string): Option<string> {
    CaptureFrom(cd, 0)
  }

  /** A capture is the group of the leftmost match. */
  lemma {:induction false} CaptureFromIsLeftmost(cd: string, i: nat)
    ensures CaptureFrom(cd, i).Some? ==>
      exists j :: i <= j < |cd| && MatchAt(cd, j) == CaptureFrom(cd, i) && forall k :: i <= k < j ==> MatchAt(cd, k).None?
    ensures CaptureFrom(cd, i).None? ==> forall k :: i <= k < |cd| ==> MatchAt(cd, k).None?
    decreases |cd| - i
  {
    if i < |cd| && MatchAt(cd, i).None? {
      CaptureFromIsLeftmost(cd, i + 1);
      if CaptureFrom(cd, i + 1).Some? {
        var j :| i + 1 <= j < |cd| && MatchAt(cd, j) == CaptureFrom(cd, i + 1)
          && forall k :: i + 1 <= k < j ==> MatchAt(cd, k).None?;
        assert forall k :: i <= k < j ==> MatchAt(cd, k).None?;
      }
    }
  }

  lemma {:induction false} CaptureSkips(cd: string, i: nat, j: nat)
    requires i <= j <= |cd|
    requires forall k :: i <= k < j ==> MatchAt(cd, k).None?
    ensures CaptureFrom(cd, i) == CaptureFrom(cd, j)
    decreases j - i
  {
    if i < j {
      CaptureSkips(cd, i + 1, j);
    }
  }

  /** The capture of the usual header `attachment; filename="<name>"` is the name. */
  lemma CaptureOfAttachmentHeader(n: string)
    requires n != "" && '\"' !in n
    ensures FilenameCapture("attachment; " + FilenameKey + n + "\"") == Some(n)
  {
    var cd := "attachment; " + FilenameKey + n + "\"";
    assert |cd| > 12 && cd[..12] == "attachment; " && cd[12..] == FilenameKey + n + "\"";
    NoMatchBeforeKey(cd);
    CaptureSkips(cd, 0, 12);
    MatchAtKey(cd, 12, n);
  }

  /** Nothing in `attachment; ` starts a match: it holds no 'f'. */
  lemma NoMatchBeforeKey(cd: string)
    requires |cd| >= 12 && cd[..12] == "attachment; "
    ensures forall k :: 0 <= k < 12 ==> MatchAt(cd, k).None?
  {
    forall k | 0 <= k < 12
      ensures MatchAt(cd, k).None?
    {
      assert cd[k] == cd[..12][k] != 'f';
      if k + 10 <= |cd| {
        assert cd[k..k + 10][0] == cd[k];
      }
    }
  }

  /** `filename="<name>"` at position `i` matches with the name as group. */
  lemma MatchAtKey(cd: string, i: nat, n: string)
    requires i <= |cd| && cd[i..] == FilenameKey + n + "\""
    requires n != "" && '\"' !in n
    ensures CaptureFrom(cd, i) == Some(n)
  {
    var rest := cd[i..];
    assert cd[i..i + 10] == rest[..10] == FilenameKey;
    assert cd[i + 10..] == n + "\"" + "";
    NonQuoteSpanOf(n, "");
    assert cd[i + 10..][..|n|] == n;
  }

  /** The download name, in order of preference: the typed name, the name
      from the content-disposition header, the placeholder. */
  function DownloadName(typed: string, contentDisposition: Option<string>, placeholder: string): (name: string)
    ensures typed != "" ==> name == typed
    ensures typed == "" && contentDisposition.Some? && FilenameCapture(contentDisposition.value).Some? ==>
      name == FilenameCapture(contentDisposition.value).value
    ensures typed == "" && (contentDisposition.None? || FilenameCapture(contentDisposition.value).None?) ==>
      name == placeholder
  {
    if typed != "" then typed
    else if contentDisposition.Some? && FilenameCapture(contentDisposition.value).Some? then
      FilenameCapture(contentDisposition.value).value
    else placeholder
  }

  /** Without a typed name, the header's name wins over the placeholder. */
  lemma HeaderNameBeatsPlaceholder(n: string, placeholder: string)
    requires n != "" && '\"' !in n
    ensures DownloadName("", Some("attachment; " + FilenameKey + n + "\""), placeholder) == n
  {
    CaptureOfAttachmentHeader(n);
  }

  /** A non-empty placeholder means the download always has a name. */
  lemma DownloadNameNonEmpty(typed: string, contentDisposition: Option<string>, placeholder: string)
    requires placeholder != ""
    ensures DownloadName(typed, contentDisposition, placeholder) != ""
  {
    if typed == "" && contentDisposition.Some? && FilenameCapture(contentDisposition.value).Some? {
      CaptureFromIsLeftmost(contentDisposition.value, 0);
    }
  }

  // ---------------------------------------------------------------------
  // previewFile and parseMarkdownContent

  /** The fields of an imported event the preview shows. */
  datatype ImportEvent = ImportEvent(date: string, startTime: string, endTime: string, eventName: string)

  datatype Preview =
    | Listing(countLine: string, items: seq<string>, ellipsis: bool)
    | ParseError(text: string)

  function PreviewItem(ev: ImportEvent): string {
    ev.date + " " + ev.startTime + "-" + ev.endTime + " " + ev.eventName
  }

  /** The preview of a list of events: the count, at most the first five
      entries, and an ellipsis when some are not shown. */
  function PreviewOf(events: seq<ImportEvent>): (p: Preview)
    ensures p.Listing? && p.countLine == "检测到 " + NatString(|events|) + " 个事件"
    ensures |p.items| == if |events| < 5 then |events| else 5
    ensures forall k :: 0 <= k < |p.items| ==> p.items[k] == PreviewItem(events[k])
    ensures p.ellipsis <==> |events| > 5
    ensures p.ellipsis <==> |p.items| < |events|
  {
    var shown := if |events| < 5 then events else events[..5];
    Listing("检测到 " + NatString(|events|) + " 个事件",
            seq(|shown|, k requires 0 <= k < |shown| => PreviewItem(shown[k])),
            |events| > 5)
  }

  /** `parseMarkdownContent`: the Markdown reader is not written yet and
      finds no events in any content. */
  function ParseMarkdownContent(content: string): seq<ImportEvent> {
    []
  }

  /** `previewFile`: `.json` files go through `JSON.parse`, whose outcome is a
      parameter (`None` when it throws or gives something without a list of
      events), `.md` files through `parseMarkdownContent`, other files are
      previewed as empty. */
  function PreviewFile(fileName: string, content: string, parsedJson: Option<seq<ImportEvent>>): Preview {
    if EndsWith(fileName, ".json") then
      if parsedJson.Some? then PreviewOf(parsedJson.value) else ParseError("文件格式错误，无法解析")
    else if EndsWith(fileName, ".md") then PreviewOf(ParseMarkdownContent(content))
    else PreviewOf([])
  }

  /** A Markdown file is always previewed as holding no events. */
  lemma MarkdownPreviewIsEmpty(fileName: string, content: string, parsedJson: Option<seq<ImportEvent>>)
    requires EndsWith(fileName, ".md")
    ensures PreviewFile(fileName, content, parsedJson) == Listing("检测到 0 个事件", [], false)
  {
    LastOfEndsWith(fileName, ".md");
    LastOfEndsWith(fileName, ".json");
  }

  lemma LastOfEndsWith(s: string, t: string)
    requires |t| > 0
    ensures EndsWith(s, t) ==> s[|s| - 1] == t[|t| - 1]
  {
    if EndsWith(s, t) {
      assert s[|s| - |t|..][|t| - 1] == s[|s| - 1];
    }
  }

  /** A JSON file with at most five events is previewed in full. */
  lemma SmallJsonPreviewIsComplete(fileName: string, content: string, events: seq<ImportEvent>)
    requires EndsWith(fileName, ".json") && |events| <= 5
    ensures var p := PreviewFile(fileName, content, Some(events));
      p.Listing? && |p.items| == |events| && !p.ellipsis
      && forall k :: 0 <= k < |events| ==> p.items[k] == PreviewItem(events[k])
  {
  }

  // ---------------------------------------------------------------------
  // SettingsManager

  /** What a response to the export request carries. */
  datatype ExportResponse = ExportResponse(ok: bool, contentDisposition: Option<string>)

  datatype ExportOutcome =
    | Aborted(alert: string)
    | Failed(alert: string)
    | Downloaded(filename: string, alert: string)

  /** A selected import file; `parsedJson` is the outcome of `JSON.parse` on
      its text. */
  datatype ImportFile = ImportFile(name: string, content: string, parsedJson: Option<seq<ImportEvent>>)

  class SettingsForm {
    var range: RangeType
    var format: Format
    /** `dataset.isoDate` of the two date inputs. */
    var startIso: Option<string>
    var endIso: Option<string>
    /** The displayed value of the two date inputs. */
    var startLabel: string
    var endLabel: string
    /** What the user typed in the file-name input. */
    var typedName: string
    var placeholder: string
    var importEnabled: bool
    var preview: Option<Preview>

    constructor ()
      ensures range == All && format == Md && startIso == None && endIso == None
      ensures startLabel == "" && endLabel == "" && typedName == ""
      ensures placeholder == InitialPlaceholder && !importEnabled && preview == None
    {
      range := All;
      format := Md;
      startIso := None;
      endIso := None;
      startLabel := "";
      endLabel := "";
      typedName := "";
      placeholder := InitialPlaceholder;
      importEnabled := false;
      preview := None;
    }

    /** `updateExportFilename`: the placeholder becomes the suggested name. */
    method UpdateExportFilename()
      modifies this`placeholder
      ensures placeholder == ExportFilename(range, format, startIso, endIso)
    {
      placeholder := ExportFilename(range, format, startIso, endIso);
    }

    /** A change of the range radio buttons. */
    method SelectRange(r: RangeType)
      modifies this`range, this`placeholder
      ensures range == r && placeholder == ExportFilename(r, format, startIso, endIso)
    {
      range := r;
      UpdateExportFilename();
    }

    /** A change of the format radio buttons. */
    method SelectFormat(f: Format)
      modifies this`format, this`placeholder
      ensures format == f && placeholder == ExportFilename(range, f, startIso, endIso)
    {
      format := f;
      UpdateExportFilename();
    }

    /** The user types in the file-name input. */
    method TypeFilename(name: string)
      modifies this`typedName
      ensures typedName == name
    {
      typedName := name;
    }

    /** The date picker of the start input confirms `d`: the input shows the
        display date, stores the calendar day of `d` as ISO text (the local
        day, not the UTC day) and the suggestion is updated. */
    method PickStartDate(d: Calendar.Date)
      requires Calendar.Valid(d) && 0 <= d.year <= 9999
      modifies this`startIso, this`startLabel, this`placeholder
      ensures startLabel == Calendar.FormatDisplayDate(d) && startIso == Some(Calendar.FormatIso(d))
      ensures placeholder == ExportFilename(range, format, startIso, endIso)
    {
      startLabel := Calendar.FormatDisplayDate(d);
      startIso := Some(Calendar.FormatIso(d));
      UpdateExportFilename();
    }

    /** The date picker of the end input confirms `d`. */
    method PickEndDate(d: Calendar.Date)
      requires Calendar.Valid(d) && 0 <= d.year <= 9999
      modifies this`endIso, this`endLabel, this`placeholder
      ensures endLabel == Calendar.FormatDisplayDate(d) && endIso == Some(Calendar.FormatIso(d))
      ensures placeholder == ExportFilename(range, format, startIso, endIso)
    {
      endLabel := Calendar.FormatDisplayDate(d);
      endIso := Some(Calendar.FormatIso(d));
      UpdateExportFilename();
    }

    /** `exportData` with the outcome of the request as a parameter (`None`
        when it fails). Returns the URL requested, if any, and how the export
        ends. A custom range missing a date stops before the request. */
    method ExportData(response: Option<ExportResponse>) returns (url: Option<string>, outcome: ExportOutcome)
      ensures url.None? <==> range == Custom && (Falsy(startIso) || Falsy(endIso))
      ensures url.None? ==> outcome == Aborted("请选择导出的时间范围")
      ensures url.Some? && range == Custom ==>
        url.value == ApiBaseUrl + "/api/export?" + QueryString([("startDate", startIso.value), ("endDate", endIso.value), ("format", Extension(format))])
      ensures url.Some? && range == All ==>
        url.value == ApiBaseUrl + "/api/export?" + QueryString([("format", Extension(format))])
      ensures url.Some? && (response.None? || !response.value.ok) ==> outcome == Failed("导出失败，请重试")
      ensures url.Some? && response.Some? && response.value.ok ==>
        outcome == Downloaded(DownloadName(typedName, response.value.contentDisposition, placeholder), "导出成功！")
    {
      var filename := typedName;
      var params: seq<(string, string)> := [];
      if range == Custom {
        if Falsy(startIso) || Falsy(endIso) {
          return None, Aborted("请选择导出的时间范围");
        }
        params := params + [("startDate", startIso.value)];
        params := params + [("endDate", endIso.value)];
      }
      params := params + [("format", Extension(format))];
      url := Some(ApiBaseUrl + "/api/export" + "?" + QueryString(params));
      assert ApiBaseUrl + "/api/export" + "?" + QueryString(params) == ApiBaseUrl + "/api/export?" + QueryString(params);
      if response.None? || !response.value.ok {
        return url, Failed("导出失败，请重试");
      }
      var cd := response.value.contentDisposition;
      if cd.Some? && filename == "" {
        var matches := FilenameCapture(cd.value);
        if matches.Some? {
          filename := matches.value;
        }
      }
      if filename == "" {
        filename := placeholder;
      }
      if typedName == "" && cd.Some? && FilenameCapture(cd.value).Some? {
        CaptureFromIsLeftmost(cd.value, 0);
      }
      outcome := Downloaded(filename, "导出成功！");
    }

    /** `handleFileSelect`: without a file the import button is disabled;
        with one it is enabled and the file is previewed. */
    method HandleFileSelect(file: Option<ImportFile>)
      modifies this`importEnabled, this`preview
      ensures importEnabled <==> file.Some?
      ensures file.None? ==> preview == old(preview)
      ensures file.Some? ==> preview == Some(PreviewFile(file.value.name, file.value.content, file.value.parsedJson))
    {
      if file.None? {
        importEnabled := false;
        return;
      }
      importEnabled := true;
      preview := Some(PreviewFile(file.value.name, file.value.content, file.value.parsedJson));
    }
  }

  /** With both dates present, the suggestion is the dated name. */
  lemma DatedFilename(startIso: string, endIso: string, f: Format)
    requires startIso != "" && endIso != ""
    ensures ExportFilename(Custom, f, Some(startIso), Some(endIso))
         == "daily_record_" + startIso + "_to_" + endIso + "." + Extension(f)
  {
    var prefix := "daily_record_" + startIso + "_to_" + endIso;
    assert prefix + ("." + Extension(f)) == prefix + "." + Extension(f);
  }

  /** Choosing a custom range and both dates suggests the dated name, which
      then names the download unless the user typed one or the server sent a
      name. */
  method CustomExportScenario(s: Calendar.Date, e: Calendar.Date, f: Format)
    returns (outcome: ExportOutcome)
    requires Calendar.Valid(s) && 0 <= s.year <= 9999 && Calendar.Valid(e) && 0 <= e.year <= 9999
    ensures outcome == Downloaded(
      "daily_record_" + Calendar.FormatIso(s) + "_to_" + Calendar.FormatIso(e) + "." + Extension(f), "导出成功！")
  {
    var startIso, endIso := Calendar.FormatIso(s), Calendar.FormatIso(e);
    var name := ExportFilename(Custom, f, Some(startIso), Some(endIso));
    DatedFilename(startIso, endIso, f);
    var form := new SettingsForm();
    form.SelectRange(Custom);
    form.SelectFormat(f);
    form.PickStartDate(s);
    form.PickEndDate(e);
    assert form.placeholder == name;
    var url;
    url, outcome := form.ExportData(Some(ExportResponse(true, None)));
    assert outcome == Downloaded(DownloadName("", None, name), "导出成功！");
  }
}
