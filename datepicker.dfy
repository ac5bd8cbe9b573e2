/** The pop-up date picker (scripts/date-picker.js): a 6 x 7 grid of day
    buttons for the viewed month, the selected day, and month navigation. */
module DatePicker {
  import opened Options
  import opened Text
  import opened Calendar

  /** One day button: its date, whether it belongs to a neighbouring month,
      and its `today` and `selected` marks. */
  datatype Cell = Cell(date: Date, otherMonth: bool, isToday: bool, selected: bool)

  // ---------------------------------------------------------------------
  // The grid of a month

  /** The date of cell `k` in the grid of month `m` of year `y`: first the
      last days of the previous month, as many as the weekday of the 1st,
      then every day of the month, then the first days of the next month. */
  function GridDate(y: int, m: int, k: int): Date
    requires 1 <= m <= 12 && 0 <= k < 42
  {
    var w, n := Weekday(Date(y, m, 1)), DaysInMonth(y, m);
    if k < w then
      var (py, pm) := PrevMonth(y, m);
      Date(py, pm, DaysInMonth(py, pm) - w + 1 + k)
    else if k < w + n then Date(y, m, k - w + 1)
    else
      var (ny, nm) := NextMonth(y, m);
      Date(ny, nm, k - w - n + 1)
  }

  /** Whether cell `k` lies outside the viewed month. */
  predicate OtherMonth(y: int, m: int, k: int)
    requires 1 <= m <= 12
  {
    k < Weekday(Date(y, m, 1)) || k >= Weekday(Date(y, m, 1)) + DaysInMonth(y, m)
  }

  function GridCell(y: int, m: int, selected: Date, today: Date, k: int): Cell
    requires 1 <= m <= 12 && 0 <= k < 42
  {
    Cell(GridDate(y, m, k), OtherMonth(y, m, k), GridDate(y, m, k) == today, GridDate(y, m, k) == selected)
  }

  /** The 42 cells `renderDays` draws. */
  function Grid(y: int, m: int, selected: Date, today: Date): (g: seq<Cell>)
    requires 1 <= m <= 12
    ensures |g| == 42 && forall k :: 0 <= k < 42 ==> g[k] == GridCell(y, m, selected, today, k)
  {
    seq(42, k requires 0 <= k < 42 => GridCell(y, m, selected, today, k))
  }

  /** The three runs: the leading cells are the last days of the previous
      month, ending on its last day; the current month follows in full; the
      trailing cells count 1, 2, ... in the next month. Only the middle run
      belongs to the viewed month. */
  lemma GridRuns(y: int, m: int)
    requires 1 <= m <= 12
    ensures var w, n := Weekday(Date(y, m, 1)), DaysInMonth(y, m);
      var (py, pm), (ny, nm) := PrevMonth(y, m), NextMonth(y, m);
      && 5 <= 42 - w - n <= 14
      && (forall k :: 0 <= k < w ==>
            GridDate(y, m, k) == Date(py, pm, DaysInMonth(py, pm) - (w - 1 - k)) && OtherMonth(y, m, k))
      && (forall k :: w <= k < w + n ==> GridDate(y, m, k) == Date(y, m, k - w + 1) && !OtherMonth(y, m, k))
      && (forall k :: w + n <= k < 42 ==> GridDate(y, m, k) == Date(ny, nm, k - w - n + 1) && OtherMonth(y, m, k))
  {
  }

  /** Every cell holds a real date. */
  lemma GridDatesValid(y: int, m: int, k: int)
    requires 1 <= m <= 12 && 0 <= k < 42
    ensures Valid(GridDate(y, m, k))
  {
  }

  /** Cell `k` is `k` days after the first cell: the grid runs through
      consecutive days. */
  lemma GridIsConsecutive(y: int, m: int, k: int)
    requires 1 <= m <= 12 && 0 <= k < 42
    ensures DayNumber(GridDate(y, m, k)) == DayNumber(Date(y, m, 1)) - Weekday(Date(y, m, 1)) + k
  {
    var w, n := Weekday(Date(y, m, 1)), DaysInMonth(y, m);
    if k < w {
      var (py, pm) := PrevMonth(y, m);
      DayNumberOfNextMonth(py, pm);
    } else if k >= w + n {
      DayNumberOfNextMonth(y, m);
    }
  }

  /** Column `k % 7` of the grid is weekday `k % 7`, Sunday first, matching
      the header 日 一 二 三 四 五 六. */
  lemma GridColumnsAreWeekdays(y: int, m: int, k: int)
    requires 1 <= m <= 12 && 0 <= k < 42
    ensures Weekday(GridDate(y, m, k)) == k % 7
  {
    var first := Date(y, m, 1);
    var w := Weekday(first);
    GridIsConsecutive(y, m, k);
    GridDatesValid(y, m, k);
    WeekdayByDayNumber(first);
    WeekdayByDayNumber(GridDate(y, m, k));
    var q := (DayNumber(first) + 6) / 7;
    assert DayNumber(first) + 6 == 7 * q + w;
    assert DayNumber(GridDate(y, m, k)) + 6 == 7 * q + k;
    ModSeven(k, q);
  }

  /** No date appears twice in a grid. */
  lemma GridDatesDistinct(y: int, m: int, j: int, k: int)
    requires 1 <= m <= 12 && 0 <= j < 42 && 0 <= k < 42 && j != k
    ensures GridDate(y, m, j) != GridDate(y, m, k)
  {
    GridIsConsecutive(y, m, j);
    GridIsConsecutive(y, m, k);
  }

  /** Exactly the cells showing the selected date are marked, which is at most one. */
  lemma SelectedAtMostOnce(y: int, m: int, selected: Date, today: Date, j: int, k: int)
    requires 1 <= m <= 12 && 0 <= j < 42 && 0 <= k < 42
    requires Grid(y, m, selected, today)[j].selected && Grid(y, m, selected, today)[k].selected
    ensures j == k
  {
    if j != k {
      GridDatesDistinct(y, m, j, k);
    }
  }

  /** A selected date in the viewed month is marked, in its own cell. */
  lemma SelectedShownInItsMonth(y: int, m: int, selected: Date, today: Date)
    requires 1 <= m <= 12 && Valid(selected) && selected.year == y && selected.month == m
    ensures var k := Weekday(Date(y, m, 1)) + selected.day - 1;
      0 <= k < 42 && Grid(y, m, selected, today)[k].selected && !Grid(y, m, selected, today)[k].otherMonth
  {
  }

  // ---------------------------------------------------------------------
  // renderMonthYear

  /** The title above the grid: `{year}年{month}月`. */
  function MonthTitle(y: int, m: int): string
    requires 1 <= m <= 12
  {
    IntString(y) + "年" + NatString(m) + "月"
  }

  /** The title names the viewed month: reading it back gives year and month. */
  lemma MonthTitleNamesMonth(y: int, m: int)
    requires 1 <= m <= 12
    ensures ReadInt(MonthTitle(y, m)) == Some((y, "年" + NatString(m) + "月"))
    ensures ReadNat(NatString(m) + "月") == Some((m, "月"))
  {
    var i, n := IntString(y), NatString(m);
    ConcatAssoc(i + "年", n, "月");
    ConcatAssoc(i, "年", n + "月");
    ConcatAssoc("年", n, "月");
    ReadIntOfIntString(y, "年" + n + "月");
    ReadNatOfNatString(m, "月");
  }

  // ---------------------------------------------------------------------
  // changeMonth

  /** `viewDate.setMonth(viewDate.getMonth() + delta)` as written: the day of
      the month is kept, and a day the target month does not have (the 31st
      in a 30-day month) rolls over into the month after. */
  function SetMonthAsWritten(d: Date, delta: int): (r: Date)
    requires Valid(d)
    ensures Valid(r)
  {
    var (y, m) := ShiftMonth(d.year, d.month, delta);
    var len := DaysInMonth(y, m);
    if d.day <= len then Date(y, m, d.day)
    else
      var (ny, nm) := NextMonth(y, m);
      Date(ny, nm, d.day - len)
  }

  /** When the day does not exist in the target month, the view ends one
      month further than asked. */
  lemma SetMonthOverflowSkipsMonth(d: Date, delta: int)
    requires Valid(d) && d.day > DaysInMonth(ShiftMonth(d.year, d.month, delta).0, ShiftMonth(d.year, d.month, delta).1)
    ensures MonthIndex(SetMonthAsWritten(d, delta).year, SetMonthAsWritten(d, delta).month) == MonthIndex(d.year, d.month) + delta + 1
  {
  }

  /** From 31 January 2025 the next-month button shows March. */
  lemma NextMonthFromJanuary31()
    ensures SetMonthAsWritten(Date(2025, 1, 31), 1) == Date(2025, 3, 3)
  {
  }

  /** The month navigation as intended: the view moves exactly `delta` months,
      keeping the day where the target month has it and taking its last day
      otherwise. */
  function ShiftViewDate(d: Date, delta: int): (r: Date)
    requires Valid(d)
    ensures Valid(r)
    ensures MonthIndex(r.year, r.month) == MonthIndex(d.year, d.month) + delta
    ensures r.day == if d.day <= DaysInMonth(r.year, r.month) then d.day else DaysInMonth(r.year, r.month)
  {
    var (y, m) := ShiftMonth(d.year, d.month, delta);
    var len := DaysInMonth(y, m);
    Date(y, m, if d.day <= len then d.day else len)
  }

  /** Moving forward and back again returns to the viewed month. */
  lemma ShiftViewDateReturns(d: Date, delta: int)
    requires Valid(d)
    ensures var r := ShiftViewDate(ShiftViewDate(d, delta), -delta); r.year == d.year && r.month == d.month
  {
    var r := ShiftViewDate(ShiftViewDate(d, delta), -delta);
    assert MonthIndex(r.year, r.month) == MonthIndex(d.year, d.month);
  }

  // ---------------------------------------------------------------------
  // CustomDatePicker

  class Picker {
    /** The day the page was opened on; `today` marks use it. */
    const today: Date
    /** Whether a callback was given to the constructor. */
    const hasCallback: bool
    var selectedDate: Date
    var viewDate: Date
    var title: string
    var cells: seq<Cell>
    var open: bool
    /** The dates handed to the callback so far, in order. */
    var delivered: seq<Date>

    ghost predicate Valid()
      reads this
    {
      Calendar.Valid(selectedDate) && Calendar.Valid(viewDate) && Calendar.Valid(today)
      && cells == Grid(viewDate.year, viewDate.month, selectedDate, today)
      && title == MonthTitle(viewDate.year, viewDate.month)
    }

    /** The picker opens on `initial`, both selected and viewed. */
    constructor (initial: Date, now: Date, callback: bool)
      requires Calendar.Valid(initial) && Calendar.Valid(now)
      ensures Valid() && open && delivered == []
      ensures selectedDate == initial && viewDate == initial && today == now && hasCallback == callback
    {
      today := now;
      hasCallback := callback;
      selectedDate := initial;
      viewDate := initial;
      open := true;
      delivered := [];
      new;
      Render();
    }

    /** `createDayButton(date, isOtherMonth)`. */
    function DayButton(date: Date, isOtherMonth: bool): Cell
      reads this
    {
      Cell(date, isOtherMonth, date == today, date == selectedDate)
    }

    /** `render`: the title and the grid for the viewed month. */
    method Render()
      requires 1 <= viewDate.month <= 12
      modifies this`title, this`cells
      ensures title == MonthTitle(viewDate.year, viewDate.month)
      ensures cells == Grid(viewDate.year, viewDate.month, selectedDate, today)
    {
      title := MonthTitle(viewDate.year, viewDate.month);
      RenderDays();
    }

    /** `renderDays`: the three loops that append the day buttons. */
    method RenderDays()
      requires 1 <= viewDate.month <= 12
      modifies this`cells
      ensures cells == Grid(viewDate.year, viewDate.month, selectedDate, today)
    {
      var year, month := viewDate.year, viewDate.month;
      var firstDayWeek := Weekday(Date(year, month, 1));
      var lastDay := DaysInMonth(year, month);
      var (py, pm) := PrevMonth(year, month);
      var (ny, nm) := NextMonth(year, month);
      cells := [];
      var i := firstDayWeek - 1;
      while i >= 0
        invariant -1 <= i < firstDayWeek
        invariant |cells| == firstDayWeek - 1 - i
        invariant forall j :: 0 <= j < |cells| ==> cells[j] == GridCell(year, month, selectedDate, today, j)
      {
        // new Date(year, month, -i): i days before the last day of the previous month
        cells := cells + [DayButton(Date(py, pm, DaysInMonth(py, pm) - i), true)];
        i := i - 1;
      }
      for day := 1 to lastDay + 1
        invariant |cells| == firstDayWeek + day - 1
        invariant forall j :: 0 <= j < |cells| ==> cells[j] == GridCell(year, month, selectedDate, today, j)
      {
        cells := cells + [DayButton(Date(year, month, day), false)];
      }
      var remainingCells := 42 - |cells|;
      for day := 1 to remainingCells + 1
        invariant |cells| == firstDayWeek + lastDay + day - 1
        invariant forall j :: 0 <= j < |cells| ==> cells[j] == GridCell(year, month, selectedDate, today, j)
      {
        cells := cells + [DayButton(Date(ny, nm, day), true)];
      }
    }

    /** A click on cell `k` (`selectDate`): the date becomes the selection; a
        date of another month also becomes the view and the grid is redrawn,
        otherwise only the `selected` marks move. */
    method SelectDate(k: nat)
      requires Valid() && k < |cells|
      modifies this`selectedDate, this`viewDate, this`title, this`cells
      ensures Valid()
      ensures selectedDate == old(cells[k].date)
      ensures old(cells[k].date.month != viewDate.month || cells[k].date.year != viewDate.year) ==>
        viewDate == old(cells[k].date)
      ensures old(cells[k].date.month == viewDate.month && cells[k].date.year == viewDate.year) ==>
        viewDate == old(viewDate) && cells[k].selected
    {
      var date := cells[k].date;
      GridDatesValid(viewDate.year, viewDate.month, k);
      selectedDate := date;
      if date.month != viewDate.month || date.year != viewDate.year {
        viewDate := date;
        Render();
      } else {
        var marked := cells;
        for i := 0 to |marked|
          invariant |marked| == |cells|
          invariant forall j :: 0 <= j < i ==> marked[j] == cells[j].(selected := false)
          invariant forall j :: i <= j < |marked| ==> marked[j] == cells[j]
        {
          marked := marked[i := marked[i].(selected := false)];
        }
        marked := marked[k := marked[k].(selected := true)];
        forall j | 0 <= j < 42
          ensures marked[j] == GridCell(viewDate.year, viewDate.month, selectedDate, today, j)
        {
          if j != k {
            GridDatesDistinct(viewDate.year, viewDate.month, j, k);
          }
        }
        cells := marked;
      }
    }

    /** `selectToday`: today becomes both the selection and the view. */
    method SelectToday()
      requires Valid()
      modifies this`selectedDate, this`viewDate, this`title, this`cells
      ensures Valid() && selectedDate == today && viewDate == today
    {
      selectedDate := today;
      viewDate := today;
      Render();
    }

    /** The month buttons (`changeMonth(delta)`), moving the view by exactly
        `delta` months. */
    method ChangeMonth(delta: int)
      requires Valid()
      modifies this`viewDate, this`title, this`cells
      ensures Valid() && selectedDate == old(selectedDate)
      ensures MonthIndex(viewDate.year, viewDate.month) == old(MonthIndex(viewDate.year, viewDate.month)) + delta
      ensures viewDate == ShiftViewDate(old(viewDate), delta)
    {
      viewDate := ShiftViewDate(viewDate, delta);
      Render();
    }

    /** `confirm`: the selection goes to the callback, if there is one, once;
        then the picker closes. */
    method Confirm()
      modifies this`delivered, this`open
      ensures delivered == old(delivered) + (if hasCallback then [selectedDate] else [])
      ensures !open
    {
      if hasCallback {
        delivered := delivered + [selectedDate];
      }
      Close();
    }

    /** `close`, by the close button, a click on the overlay, cancel or Escape. */
    method Close()
      modifies this`open
      ensures !open
    {
      open := false;
    }
  }
}
