/** The 24-hour grid of the home page (scripts/hours-display.js): how an
    event's start and end times become one block per hour capsule, where a
    block sits inside its capsule, the duration shown in the tooltip, the
    times the add-event dialog proposes, and the event colour. */
module Hours {
  import opened Options
  import opened Text

  /** A time of day as `parseTime` returns it: `{ hour, minute }`. */
  datatype Time = Time(hour: nat, minute: nat)

  predicate ValidTime(t: Time) {
    t.hour < 24 && t.minute < 60
  }

  function MinuteOfDay(t: Time): nat {
    60 * t.hour + t.minute
  }

  // ---------------------------------------------------------------------
  // parseTime

  /** `Number(field)` for a field of decimal digits (the empty field is 0);
      any other field is NaN, here `None`. */
  function FieldNumber(f: string): Option<nat> {
    if AllDigits(f) then Some(DigitsValue(f)) else None
  }

  /** `parseTime`: split at ':' and read the first two fields as hour and
      minute; further fields (seconds) are ignored. A missing minute field
      (undefined) or a field that is not a number gives `None`. */
  function ParseTime(s: string): Option<Time> {
    var fields := Split(s, ':');
    if |fields| < 2 then None
    else
      var h, m := FieldNumber(fields[0]), FieldNumber(fields[1]);
      if h.Some? && m.Some? then Some(Time(h.value, m.value)) else None
  }

  /** `HH:MM`, hour and minute padded to two digits. */
  function FormatTime(t: Time): string {
    Pad2(t.hour) + ":" + Pad2(t.minute)
  }

  lemma DigitsHaveNoColon(s: string)
    requires AllDigits(s)
    ensures ':' !in s
  {
    forall i | 0 <= i < |s|
      ensures s[i] != ':'
    {
      assert IsDigit(s[i]);
    }
  }

  /** Only the first two fields count: a seconds field never changes the result. */
  lemma ParseTimeIgnoresSeconds(hh: string, mm: string, rest: string)
    requires ':' !in hh && ':' !in mm
    ensures ParseTime(hh + ":" + mm + ":" + rest) == ParseTime(hh + ":" + mm)
  {
    SplitAtSeparator(hh, ':', mm + ":" + rest);
    assert hh + ":" + mm + ":" + rest == hh + [':'] + (mm + ":" + rest);
    SplitAtSeparator(mm, ':', rest);
    assert mm + ":" + rest == mm + [':'] + rest;
    SplitAtSeparator(hh, ':', mm);
    assert hh + ":" + mm == hh + [':'] + mm;
    SplitWithoutSeparator(mm, ':');
  }

  /** `parseTime` reads back what the dialog writes, with or without seconds
      (the store returns `HH:MM:SS`). */
  lemma ParseTimeOfFormat(t: Time, seconds: string)
    requires seconds == "" || seconds[0] == ':'
    ensures ParseTime(FormatTime(t) + seconds) == Some(t)
    decreases |seconds|
  {
    DigitsHaveNoColon(Pad2(t.hour));
    DigitsHaveNoColon(Pad2(t.minute));
    if seconds == "" {
      SplitAtSeparator(Pad2(t.hour), ':', Pad2(t.minute));
      assert FormatTime(t) + seconds == Pad2(t.hour) + [':'] + Pad2(t.minute);
      SplitWithoutSeparator(Pad2(t.minute), ':');
    } else {
      ParseTimeIgnoresSeconds(Pad2(t.hour), Pad2(t.minute), seconds[1..]);
      assert seconds == ":" + seconds[1..];
      assert FormatTime(t) + seconds == Pad2(t.hour) + ":" + Pad2(t.minute) + ":" + seconds[1..];
      ParseTimeOfFormat(t, "");
      assert FormatTime(t) + "" == Pad2(t.hour) + ":" + Pad2(t.minute);
    }
  }

  // ---------------------------------------------------------------------
  // renderEvent: one segment per hour capsule

  /** The part of an event drawn in one hour capsule: minutes
      `startMinute..endMinute` of hour `hour`. */
  datatype Segment = Segment(hour: int, startMinute: int, endMinute: int)

  /** The grid has a capsule for each hour 0..23 and no other. */
  predicate HasCapsule(h: int) {
    0 <= h < 24
  }

  /** What the loop body of `renderEvent` draws for hour `h`. */
  function SegmentAt(h: int, s: Time, e: Time): Option<Segment> {
    if !HasCapsule(h) then None
    else if h == e.hour && e.minute == 0 && h != s.hour then None
    else Some(Segment(h, if h == s.hour then s.minute else 0, if h == e.hour then e.minute else 59))
  }

  /** The segments drawn for hours `h..e.hour`, in order. */
  function SegmentsFrom(h: int, s: Time, e: Time): seq<Segment>
    decreases e.hour + 1 - h
  {
    if h > e.hour then []
    else (if SegmentAt(h, s, e).Some? then [SegmentAt(h, s, e).value] else []) + SegmentsFrom(h + 1, s, e)
  }

  /** All segments of an event from `s` to `e`. */
  function Layout(s: Time, e: Time): seq<Segment> {
    SegmentsFrom(s.hour, s, e)
  }

  /** `renderEvent`: walks the hours from the start hour to the end hour and
      emits a segment for each hour that has a capsule, except an end hour
      reached at minute 0. With the grid replaced by an error message no
      capsule is found and nothing is drawn. */
  method RenderEvent(s: Time, e: Time, gridShown: bool) returns (segs: seq<Segment>)
    ensures segs == if gridShown then Layout(s, e) else []
  {
    segs := [];
    var hour: int := s.hour;
    while hour <= e.hour
      invariant s.hour <= hour && (hour <= e.hour + 1 || hour == s.hour)
      invariant if gridShown then segs + SegmentsFrom(hour, s, e) == Layout(s, e) else segs == []
      decreases e.hour + 1 - hour
    {
      if !(gridShown && HasCapsule(hour)) {
        hour := hour + 1;
        continue;
      }
      var startMinute, endMinute := 0, 59;
      if hour == s.hour {
        startMinute := s.minute;
      }
      if hour == e.hour {
        endMinute := e.minute;
      }
      if hour == e.hour && e.minute == 0 && hour != s.hour {
        hour := hour + 1;
        continue;
      }
      segs := segs + [Segment(hour, startMinute, endMinute)];
      hour := hour + 1;
    }
    assert segs + [] == segs;
  }

  /** The segments from hour `h` on lie in hours `h..e.hour` and each is what
      its hour prescribes. */
  lemma {:induction false} SegmentsFromInRange(h: int, s: Time, e: Time)
    ensures forall k :: 0 <= k < |SegmentsFrom(h, s, e)| ==>
      h <= SegmentsFrom(h, s, e)[k].hour <= e.hour
      && SegmentAt(SegmentsFrom(h, s, e)[k].hour, s, e) == Some(SegmentsFrom(h, s, e)[k])
    decreases e.hour + 1 - h
  {
    if h <= e.hour {
      SegmentsFromInRange(h + 1, s, e);
    }
  }

  /** The segments from hour `h` on are in strictly increasing hour order,
      none before hour `h`. */
  lemma {:induction false} SegmentsFromIncreasing(h: int, s: Time, e: Time)
    ensures forall k :: 0 <= k < |SegmentsFrom(h, s, e)| ==> h <= SegmentsFrom(h, s, e)[k].hour
    ensures forall j, k :: 0 <= j < k < |SegmentsFrom(h, s, e)| ==>
      SegmentsFrom(h, s, e)[j].hour < SegmentsFrom(h, s, e)[k].hour
    decreases e.hour + 1 - h
  {
    if h <= e.hour {
      SegmentsFromIncreasing(h + 1, s, e);
      var rest := SegmentsFrom(h + 1, s, e);
      if SegmentAt(h, s, e).Some? {
        var x := SegmentAt(h, s, e).value;
        assert x.hour == h;
        ConsIncreasing(x, rest);
        assert SegmentsFrom(h, s, e) == [x] + rest;
      } else {
        assert SegmentsFrom(h, s, e) == rest;
      }
    }
  }

  /** A segment placed before segments of later hours in increasing order
      keeps the order increasing. */
  lemma ConsIncreasing(x: Segment, rest: seq<Segment>)
    requires forall k :: 0 <= k < |rest| ==> x.hour < rest[k].hour
    requires forall j, k :: 0 <= j < k < |rest| ==> rest[j].hour < rest[k].hour
    ensures forall k :: 0 <= k < |[x] + rest| ==> x.hour <= ([x] + rest)[k].hour
    ensures forall j, k :: 0 <= j < k < |[x] + rest| ==> ([x] + rest)[j].hour < ([x] + rest)[k].hour
  {
    var l := [x] + rest;
    forall j, k | 0 <= j < k < |l|
      ensures l[j].hour < l[k].hour
    {
      assert l[k] == rest[k - 1];
      if j > 0 {
        assert l[j] == rest[j - 1];
      }
    }
  }

  /** Segments only occur in the hours from the start hour to the end hour
      that have a capsule, in increasing hour order, one per hour; an event
      whose end hour is before its start hour draws nothing. */
  lemma LayoutHours(s: Time, e: Time)
    ensures forall k :: 0 <= k < |Layout(s, e)| ==>
      s.hour <= Layout(s, e)[k].hour <= e.hour && HasCapsule(Layout(s, e)[k].hour)
    ensures forall j, k :: 0 <= j < k < |Layout(s, e)| ==> Layout(s, e)[j].hour < Layout(s, e)[k].hour
    ensures e.hour < s.hour ==> Layout(s, e) == []
  {
    SegmentsFromInRange(s.hour, s, e);
    SegmentsFromIncreasing(s.hour, s, e);
  }

  /** An event within one hour is one segment in that hour with the event's
      own start and end minutes. */
  lemma SingleHourEvent(s: Time, e: Time)
    requires s.hour == e.hour < 24
    ensures Layout(s, e) == [Segment(s.hour, s.minute, e.minute)]
  {
    assert SegmentsFrom(s.hour + 1, s, e) == [];
  }

  /** From an hour after the start hour up to an end hour with a capsule: one
      segment per hour, 0..59 before the end hour, and 0..endMinute in the
      end hour unless the event ends at minute 0 there. */
  lemma {:induction false} LaterHours(h: int, s: Time, e: Time)
    requires s.hour < h && 0 <= h <= e.hour < 24
    ensures var l := SegmentsFrom(h, s, e);
      && |l| == e.hour - h + (if e.minute == 0 then 0 else 1)
      && (forall k :: 0 <= k < |l| ==>
            l[k] == Segment(h + k, 0, if h + k == e.hour then e.minute else 59))
    decreases e.hour - h
  {
    if h < e.hour {
      LaterHours(h + 1, s, e);
    } else {
      assert SegmentsFrom(h + 1, s, e) == [];
    }
  }

  /** A multi-hour event starts at its start minute and runs to 59, fills
      every hour in between, and ends at its end minute in the end hour,
      which gets no segment when the event ends exactly on the hour. */
  lemma MultiHourEvent(s: Time, e: Time)
    requires s.hour < e.hour < 24
    ensures var l := Layout(s, e);
      && |l| == e.hour - s.hour + (if e.minute == 0 then 0 else 1)
      && l[0] == Segment(s.hour, s.minute, 59)
      && (forall k :: 0 < k < |l| && l[k].hour < e.hour ==> l[k] == Segment(s.hour + k, 0, 59))
      && (e.minute != 0 ==> l[|l| - 1] == Segment(e.hour, 0, e.minute))
      && (e.minute == 0 ==> forall k :: 0 <= k < |l| ==> l[k].hour < e.hour)
  {
    LaterHours(s.hour + 1, s, e);
    var rest := SegmentsFrom(s.hour + 1, s, e);
    assert Layout(s, e) == [Segment(s.hour, s.minute, 59)] + rest;
  }

  /** 08:00-10:00 is drawn in hours 8 and 9 only. */
  lemma EightToTen()
    ensures Layout(Time(8, 0), Time(10, 0)) == [Segment(8, 0, 59), Segment(9, 0, 59)]
  {
    MultiHourEvent(Time(8, 0), Time(10, 0));
  }

  // ---------------------------------------------------------------------
  // createEventBlock: position and width inside the capsule

  /** `left`: the start minute as a percentage of the hour. */
  function BlockLeft(g: Segment): real {
    (g.startMinute as real) / 60.0 * 100.0
  }

  /** `width`: the minutes `startMinute..endMinute`, both included, as a
      percentage of the hour. */
  function BlockWidth(g: Segment): real {
    ((g.endMinute - g.startMinute + 1) as real) / 60.0 * 100.0
  }

  /** Minutes covered by the blocks of a segment list. */
  function CoveredMinutes(l: seq<Segment>): int {
    if |l| == 0 then 0 else CoveredMinutes(l[..|l| - 1]) + (l[|l| - 1].endMinute - l[|l| - 1].startMinute + 1)
  }

  lemma {:induction false} CoveredMinutesConcat(a: seq<Segment>, b: seq<Segment>)
    ensures CoveredMinutes(a + b) == CoveredMinutes(a) + CoveredMinutes(b)
    decreases |b|
  {
    if |b| > 0 {
      assert (a + b)[..|a + b| - 1] == a + b[..|b| - 1];
      CoveredMinutesConcat(a, b[..|b| - 1]);
    } else {
      assert a + b == a;
    }
  }

  /** For well-formed times with the start not after the end, every block
      lies inside its capsule and has positive width. */
  lemma BlocksFitCapsules(s: Time, e: Time)
    requires ValidTime(s) && ValidTime(e) && MinuteOfDay(s) <= MinuteOfDay(e)
    ensures forall k :: 0 <= k < |Layout(s, e)| ==>
      0.0 <= BlockLeft(Layout(s, e)[k]) && 0.0 < BlockWidth(Layout(s, e)[k])
      && BlockLeft(Layout(s, e)[k]) + BlockWidth(Layout(s, e)[k]) <= 100.0
  {
    SegmentsFromInRange(s.hour, s, e);
    forall k | 0 <= k < |Layout(s, e)|
      ensures 0.0 <= BlockLeft(Layout(s, e)[k]) && 0.0 < BlockWidth(Layout(s, e)[k])
        && BlockLeft(Layout(s, e)[k]) + BlockWidth(Layout(s, e)[k]) <= 100.0
    {
      var g := Layout(s, e)[k];
      assert SegmentAt(g.hour, s, e) == Some(g);
      assert 0 <= g.startMinute <= g.endMinute < 60;
      SegmentFits(g);
    }
  }

  lemma SegmentFits(g: Segment)
    requires 0 <= g.startMinute <= g.endMinute < 60
    ensures 0.0 <= BlockLeft(g) && 0.0 < BlockWidth(g) && BlockLeft(g) + BlockWidth(g) <= 100.0
  {
    var a, w := g.startMinute as real, (g.endMinute - g.startMinute + 1) as real;
    assert BlockLeft(g) + BlockWidth(g) == (a + w) / 60.0 * 100.0;
    assert a + w <= 60.0;
  }

  /** An event inside one hour whose end minute precedes its start minute is
      still drawn, with a width of zero or less. */
  lemma InvertedSingleHourEvent(s: Time, e: Time)
    requires s.hour == e.hour < 24 && e.minute < s.minute
    ensures |Layout(s, e)| == 1 && BlockWidth(Layout(s, e)[0]) <= 0.0
  {
    SingleHourEvent(s, e);
  }

  lemma {:induction false} LaterHoursCovered(h: int, s: Time, e: Time)
    requires s.hour < h && 0 <= h <= e.hour < 24
    ensures CoveredMinutes(SegmentsFrom(h, s, e)) == 60 * (e.hour - h) + (if e.minute == 0 then 0 else e.minute + 1)
    decreases e.hour - h
  {
    var rest := SegmentsFrom(h + 1, s, e);
    if h < e.hour {
      LaterHoursCovered(h + 1, s, e);
      assert SegmentsFrom(h, s, e) == [Segment(h, 0, 59)] + rest;
      CoveredMinutesConcat([Segment(h, 0, 59)], rest);
    } else {
      assert rest == [];
      if e.minute != 0 {
        assert SegmentsFrom(h, s, e) == [Segment(h, 0, e.minute)];
      }
    }
  }

  /** The blocks of an event cover its duration plus one minute, because a
      block includes its end minute; an event ending exactly on a later hour
      covers its duration exactly, since that hour is not drawn. */
  lemma CoveredMinutesMatchDuration(s: Time, e: Time)
    requires ValidTime(s) && ValidTime(e) && MinuteOfDay(s) <= MinuteOfDay(e)
    ensures CoveredMinutes(Layout(s, e))
         == DurationMinutes(s, e) + (if e.minute == 0 && e.hour != s.hour then 0 else 1)
  {
    if s.hour == e.hour {
      SingleHourEvent(s, e);
      assert CoveredMinutes([Segment(s.hour, s.minute, e.minute)]) == e.minute - s.minute + 1;
    } else {
      LaterHoursCovered(s.hour + 1, s, e);
      var rest := SegmentsFrom(s.hour + 1, s, e);
      assert Layout(s, e) == [Segment(s.hour, s.minute, 59)] + rest;
      CoveredMinutesConcat([Segment(s.hour, s.minute, 59)], rest);
      assert CoveredMinutes([Segment(s.hour, s.minute, 59)]) == 60 - s.minute;
    }
  }

  // ---------------------------------------------------------------------
  // calculateDuration

  /** End minus start in minutes, a day added when the difference is negative. */
  function DurationMinutes(s: Time, e: Time): int {
    var total := MinuteOfDay(e) - MinuteOfDay(s);
    if total < 0 then total + 24 * 60 else total
  }

  /** For well-formed times the duration is the end-minus-start difference
      modulo one day. */
  lemma DurationIsModuloDay(s: Time, e: Time)
    requires ValidTime(s) && ValidTime(e)
    ensures DurationMinutes(s, e) == (MinuteOfDay(e) - MinuteOfDay(s)) % 1440
    ensures 0 <= DurationMinutes(s, e) < 1440
  {
  }

  /** The tooltip text for a duration: `H小时` followed by `M分钟` only when M
      is positive, or `M分钟` below one hour (hours by `Math.floor`, minutes by
      JavaScript's `%`). */
  function DurationText(total: int): string {
    var hours := total / 60;
    var minutes := JsRem(total, 60);
    if hours > 0 then IntString(hours) + "小时" + (if minutes > 0 then IntString(minutes) + "分钟" else "")
    else IntString(minutes) + "分钟"
  }

  /** `calculateDuration` on the two time strings; `NaN分钟` when either does
      not parse. */
  function CalculateDuration(startTime: string, endTime: string): string {
    var s, e := ParseTime(startTime), ParseTime(endTime);
    if s.Some? && e.Some? then DurationText(DurationMinutes(s.value, e.value)) else "NaN分钟"
  }

  /** Reads a duration text back into minutes. */
  function ReadDurationText(text: string): Option<int> {
    var n := ReadNat(text);
    if n.None? then None
    else
      var (v, rest) := n.value;
      if rest == "分钟" then Some(v)
      else if |rest| >= 2 && rest[..2] == "小时" then
        if rest[2..] == "" then Some(60 * v)
        else
          var m := ReadNat(rest[2..]);
          if m.Some? && m.value.1 == "分钟" then Some(60 * v + m.value.0) else None
      else None
  }

  /** The duration text loses nothing for any non-negative duration. */
  lemma DurationTextRoundTrip(total: int)
    requires total >= 0
    ensures ReadDurationText(DurationText(total)) == Some(total)
  {
    if total / 60 > 0 && total % 60 > 0 {
      HoursMinutesTextRoundTrip(total);
    } else if total / 60 > 0 {
      WholeHoursTextRoundTrip(total);
    } else {
      MinutesTextRoundTrip(total);
    }
  }

  /** The three forms of the duration text of a non-negative duration. */
  lemma DurationTextShape(total: int)
    requires total >= 0
    ensures var hours, minutes := total / 60, total % 60;
      && total == 60 * hours + minutes
      && (hours > 0 && minutes > 0 ==> DurationText(total) == NatString(hours) + ("小时" + (NatString(minutes) + "分钟")))
      && (hours > 0 && minutes == 0 ==> DurationText(total) == NatString(hours) + "小时")
      && (hours == 0 ==> DurationText(total) == NatString(minutes) + "分钟")
  {
    var hours, minutes := total / 60, total % 60;
    assert JsRem(total, 60) == minutes;
    assert IntString(hours) == NatString(hours) && IntString(minutes) == NatString(minutes);
    var h, m := NatString(hours), NatString(minutes);
    assert h + "小时" + (m + "分钟") == h + ("小时" + (m + "分钟"));
    assert h + "小时" + "" == h + "小时";
  }

  /** `H小时M分钟` reads back. */
  lemma HoursMinutesTextRoundTrip(total: int)
    requires total >= 0 && total / 60 > 0 && total % 60 > 0
    ensures ReadDurationText(DurationText(total)) == Some(total)
  {
    DurationTextShape(total);
    var h, mi := total / 60, total % 60;
    var rest := "小时" + (NatString(mi) + "分钟");
    ReadNatOfNatString(h, rest);
    assert rest != "分钟" by {
      assert rest[0] != "分钟"[0];
    }
    assert rest[..2] == "小时" && rest[2..] == NatString(mi) + "分钟";
    assert rest[2..] != "" by {
      assert |rest[2..]| >= 3;
    }
    ReadNatOfNatString(mi, "分钟");
  }

  /** `H小时` reads back. */
  lemma WholeHoursTextRoundTrip(total: int)
    requires total >= 0 && total / 60 > 0 && total % 60 == 0
    ensures ReadDurationText(DurationText(total)) == Some(total)
  {
    DurationTextShape(total);
    ReadNatOfNatString(total / 60, "小时");
    assert "小时" != "分钟" by {
      assert "小时"[0] != "分钟"[0];
    }
    assert "小时"[..2] == "小时" && "小时"[2..] == "";
  }

  /** `M分钟` reads back. */
  lemma MinutesTextRoundTrip(total: int)
    requires total >= 0 && total / 60 == 0
    ensures ReadDurationText(DurationText(total)) == Some(total)
  {
    DurationTextShape(total);
    ReadNatOfNatString(total % 60, "分钟");
  }

  // ---------------------------------------------------------------------
  // showAddEventDialog

  /** The start and end times the add dialog proposes for hour `hour`. */
  function DefaultTimes(hour: nat): (string, string) {
    (Pad2(hour) + ":00", if hour == 23 then "23:59" else Pad2(hour + 1) + ":00")
  }

  /** The proposed times are `hh:00` and `(h+1):00`, or `23:59` for hour 23,
      and `parseTime` reads them as such. */
  lemma DefaultTimesParse(hour: nat)
    requires hour < 24
    ensures ParseTime(DefaultTimes(hour).0) == Some(Time(hour, 0))
    ensures ParseTime(DefaultTimes(hour).1) == Some(if hour == 23 then Time(23, 59) else Time(hour + 1, 0))
  {
    OnTheHourIsFormatted(hour);
    ParseTimeOfFormat(Time(hour, 0), "");
    if hour == 23 {
      LastMinuteIsFormatted();
      ParseTimeOfFormat(Time(23, 59), "");
    } else {
      OnTheHourIsFormatted(hour + 1);
      ParseTimeOfFormat(Time(hour + 1, 0), "");
    }
  }

  lemma OnTheHourIsFormatted(h: nat)
    ensures Pad2(h) + ":00" == FormatTime(Time(h, 0)) + ""
  {
    assert Pad2(0) == "00";
    ConcatAssoc(Pad2(h), ":", "00");
  }

  lemma LastMinuteIsFormatted()
    ensures "23:59" == FormatTime(Time(23, 59)) + ""
  {
    assert Pad2(23) == "23" && Pad2(59) == "59";
  }

  /** An event created with the proposed times fills exactly its own hour
      capsule, and its tooltip says one hour (59 minutes for hour 23). */
  lemma DefaultEventFillsItsHour(hour: nat)
    requires hour < 24
    ensures var (st, et) := DefaultTimes(hour);
      && ParseTime(st).Some? && ParseTime(et).Some?
      && Layout(ParseTime(st).value, ParseTime(et).value) == [Segment(hour, 0, 59)]
      && CalculateDuration(st, et) == if hour == 23 then "59分钟" else "1小时"
  {
    DefaultTimesParse(hour);
    if hour == 23 {
      LastHourEvent();
    } else {
      MultiHourEvent(Time(hour, 0), Time(hour + 1, 0));
      OneHourText();
    }
  }

  lemma LastHourEvent()
    ensures Layout(Time(23, 0), Time(23, 59)) == [Segment(23, 0, 59)]
    ensures DurationText(DurationMinutes(Time(23, 0), Time(23, 59))) == "59分钟"
  {
    SingleHourEvent(Time(23, 0), Time(23, 59));
    assert NatString(59) == "59";
    assert DurationText(59) == NatString(59) + "分钟";
  }

  lemma OneHourText()
    ensures DurationText(60) == "1小时"
  {
    assert NatString(1) == "1";
    assert DurationText(60) == NatString(1) + "小时" + "";
  }

  // ---------------------------------------------------------------------
  // generateEventColor

  /** JavaScript's ToInt32: the value modulo 2^32 as a signed 32-bit integer. */
  function ToInt32(x: int): (r: int)
    ensures -0x8000_0000 <= r < 0x8000_0000
    ensures (x - r) % 0x1_0000_0000 == 0
  {
    var m := x % 0x1_0000_0000;
    if m >= 0x8000_0000 then m - 0x1_0000_0000 else m
  }

  /** One step of the name hash: `charCode + ((hash << 5) - hash)`, where the
      shift works on 32-bit integers and the rest on numbers. */
  function HashStep(hash: int, c: char): int {
    (c as int) + (ToInt32(ToInt32(hash) * 32) - hash)
  }

  /** The hash of a name, character by character from the left. */
  function NameHash(name: string): int
    decreases |name|
  {
    if |name| == 0 then 0 else HashStep(NameHash(name[..|name| - 1]), name[|name| - 1])
  }

  /** `hsla(hue, saturation%, lightness%, 0.8)` of an event block. */
  datatype Hsla = Hsla(hue: int, saturation: int, lightness: int)

  /** `generateEventColor`: the hue from the name, saturation and lightness
      from the hour. */
  method GenerateEventColor(name: string, hour: nat) returns (color: Hsla)
    ensures color.hue == (if NameHash(name) < 0 then -NameHash(name) else NameHash(name)) % 360
    ensures 0 <= color.hue < 360
    ensures color.saturation == 30 + (hour % 4) * 10 && color.saturation in {30, 40, 50, 60}
    ensures color.lightness == 60 + (hour % 3) * 10 && color.lightness in {60, 70, 80}
  {
    var hash := 0;
    for i := 0 to |name|
      invariant hash == NameHash(name[..i])
    {
      assert name[..i + 1][..i] == name[..i];
      hash := (name[i] as int) + (ToInt32(ToInt32(hash) * 32) - hash);
    }
    assert name[..|name|] == name;
    var baseHue := (if hash < 0 then -hash else hash) % 360;
    color := Hsla(baseHue, 30 + (hour % 4) * 10, 60 + (hour % 3) * 10);
  }

  // ---------------------------------------------------------------------
  // HoursDisplayManager: the events of the shown date and their blocks

  /** An event record as the store returns it. */
  datatype Event = Event(id: int, date: string, startTime: string, endTime: string, eventName: string, notes: string)

  /** An event block placed in an hour capsule. */
  datatype Block = Block(eventId: int, eventName: string, segment: Segment)

  /** The segments of one stored event; an event whose times do not parse
      draws nothing. */
  function EventSegments(ev: Event): seq<Segment> {
    var s, e := ParseTime(ev.startTime), ParseTime(ev.endTime);
    if s.Some? && e.Some? then Layout(s.value, e.value) else []
  }

  function EventBlocks(ev: Event, segs: seq<Segment>): (r: seq<Block>)
    ensures |r| == |segs|
    ensures forall k :: 0 <= k < |r| ==> r[k] == Block(ev.id, ev.eventName, segs[k])
  {
    seq(|segs|, k requires 0 <= k < |segs| => Block(ev.id, ev.eventName, segs[k]))
  }

  /** The blocks of a list of events, event after event. */
  function AllBlocks(events: seq<Event>): seq<Block>
    decreases |events|
  {
    if |events| == 0 then []
    else AllBlocks(events[..|events| - 1]) + EventBlocks(events[|events| - 1], EventSegments(events[|events| - 1]))
  }

  /** The fields of one add-event dialog before the user edits it. */
  datatype Draft = Draft(date: Option<string>, startTime: string, endTime: string, eventName: string, notes: string)

  class HoursDisplay {
    /** The date whose events are shown (null until the first load). */
    var currentDate: Option<string>
    var events: seq<Event>
    /** False once an error message has replaced the hour capsules. */
    var gridShown: bool
    /** The blocks currently drawn in the capsules, in drawing order. */
    var blocks: seq<Block>
    var errorMessage: Option<string>

    ghost predicate Valid()
      reads this
    {
      blocks == if gridShown then AllBlocks(events) else []
    }

    constructor ()
      ensures Valid()
      ensures currentDate == None && events == [] && gridShown && blocks == [] && errorMessage == None
    {
      currentDate := None;
      events := [];
      gridShown := true;
      blocks := [];
      errorMessage := None;
    }

    /** `renderEvents`: remove every block, then draw each event in turn. */
    method RenderEvents()
      modifies this`blocks
      ensures Valid()
    {
      blocks := [];
      for i := 0 to |events|
        invariant blocks == if gridShown then AllBlocks(events[..i]) else []
      {
        var s, e := ParseTime(events[i].startTime), ParseTime(events[i].endTime);
        var segs: seq<Segment> := [];
        if s.Some? && e.Some? {
          segs := RenderEvent(s.value, e.value, gridShown);
        }
        assert events[..i + 1][..i] == events[..i];
        blocks := blocks + EventBlocks(events[i], segs);
      }
      assert events[..|events|] == events;
    }

    /** `loadEvents(date)` with the outcome of the request as a parameter:
        `Some(list)` when the store answered with a list of events, `None`
        when the request or the rendering failed. A failure puts an error
        message in place of the hour capsules, and since the capsules are
        built only once, later loads draw nothing. */
    method LoadEvents(date: string, response: Option<seq<Event>>)
      requires Valid()
      modifies this
      ensures Valid()
      ensures currentDate == Some(date)
      ensures response.Some? ==>
        events == response.value && gridShown == old(gridShown) && errorMessage == old(errorMessage)
      ensures response.None? ==>
        events == old(events) && !gridShown && blocks == [] && errorMessage == Some("加载事件失败，请稍后重试")
      ensures !old(gridShown) ==> blocks == []
    {
      currentDate := Some(date);
      if response.Some? {
        events := response.value;
        RenderEvents();
      } else {
        gridShown := false;
        blocks := [];
        errorMessage := Some("加载事件失败，请稍后重试");
      }
    }

    /** `showAddEventDialog(hour)`: the dialog opens on the current date with
        the proposed times and empty name and notes. */
    function AddEventDraft(hour: nat): (d: Draft)
      reads this
      ensures d.date == currentDate && d.eventName == "" && d.notes == ""
      ensures (d.startTime, d.endTime) == DefaultTimes(hour)
    {
      Draft(currentDate, DefaultTimes(hour).0, DefaultTimes(hour).1, "", "")
    }
  }
}
