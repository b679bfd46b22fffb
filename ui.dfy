/**
  The UI document's calendar and class-selection handlers: `setFocusDate`, `clearFocusDate`,
  `shiftCalendarWeek`, `setSelectedClass`, the lazy week start of `renderCalendar` and the
  dangling-selection repair of `renderClassList`. Each is a function on `UiDoc` and a method of
  `UiState`, the object that holds `uiState`'s fields; saving the document is not modelled.
 */
module Ui {
  import opened Options
  import opened Text
  import opened Tasks
  import opened Dates
  import opened Persist
  import opened View
  import opened Calendar

  /** `clearFocusDate`: the focus goes, the shown week stays. */
  function ClearFocus(u: UiDoc): UiDoc {
    u.(focusDate := None)
  }

  /** `setFocusDate(iso)`: no date clears the focus; a date becomes the focus and the calendar
      jumps to its week. */
  function SetFocus(u: UiDoc, d: Option<Date>): UiDoc
    requires d.Some? ==> ValidDate(d.value)
  {
    match d
    case None => ClearFocus(u)
    case Some(day) => u.(focusDate := Some(day), calendarWeekStart := Some(StartOfWeek(day)))
  }

  /** The week `shiftCalendarWeek` starts from: the shown week, else the week of the focus date,
      else of today. */
  function ShiftBase(u: UiDoc, today: Date): Date
    requires UiDatesValid(u) && ValidDate(today)
  {
    match u.calendarWeekStart
    case Some(ws) => ws
    case None => StartOfWeek(if u.focusDate.Some? then u.focusDate.value else today)
  }

  /** `shiftCalendarWeek(delta)`: the shown week moves by `delta` weeks, and a focus date moves
      to the first day of the new week. */
  function ShiftWeek(u: UiDoc, delta: int, today: Date): UiDoc
    requires UiDatesValid(u) && ValidDate(today)
  {
    var start := AddDays(ShiftBase(u, today), 7 * delta);
    u.(calendarWeekStart := Some(start), focusDate := if u.focusDate.Some? then Some(start) else None)
  }

  /** `setSelectedClass(value)`: `value || 'all'`. */
  function SelectClass(u: UiDoc, value: string): UiDoc {
    u.(selectedClassId := if value == "" then "all" else value)
  }

  /** `renderClassList`'s repair of a selection that names no class. */
  function SettleClass(u: UiDoc, classes: seq<Class>): UiDoc {
    u.(selectedClassId := SettledSelection(u.selectedClassId, classes))
  }

  /** The calendar shows the focus date: the shown week starts on a Sunday, and a focus date lies
      within the seven days from it. */
  predicate WindowShowsFocus(u: UiDoc) {
    UiDatesValid(u)
    && (u.calendarWeekStart.Some? ==> Weekday(u.calendarWeekStart.value) == 0)
    && (u.focusDate.Some? && u.calendarWeekStart.Some? ==>
          0 <= DayNumber(u.focusDate.value) - DayNumber(u.calendarWeekStart.value) < 7)
  }

  /** Start-up establishes the window: a document without a week start gets the week of its
      focus date (or of today). */
  lemma StartUpShowsFocus(u: UiDoc, today: Date)
    requires UiDatesValid(u) && ValidDate(today) && u.calendarWeekStart.None?
    ensures WindowShowsFocus(ShapeUi(u, today))
  {
    StartOfWeekIsSunday(if u.focusDate.Some? then u.focusDate.value else today);
  }

  /** Focusing a date shows its week, with the date in the cell of its weekday, marked as the
      focus; no other field changes. */
  lemma SetFocusShows(u: UiDoc, d: Date, tasks: seq<Task>, today: Date)
    requires UiDatesValid(u) && ValidDate(d)
    ensures var r := SetFocus(u, Some(d));
            WindowShowsFocus(r) && r.focusDate == Some(d)
            && r.calendarWeekStart == Some(StartOfWeek(d))
            && r.theme == u.theme && r.selectedClassId == u.selectedClassId && r.scratchpad == u.scratchpad
    ensures var cell := Week(StartOfWeek(d), tasks, Some(d), today)[Weekday(d)];
            cell.date == d && cell.isFocus
  {
    StartOfWeekIsSunday(d);
    var ws := StartOfWeek(d);
    var c := AddDays(ws, Weekday(d));
    DayNumberOrder(c, d);
  }

  /** Clicking a cell of the strip focuses its date and keeps the same week on screen. */
  lemma ClickCellKeepsWeek(u: UiDoc, tasks: seq<Task>, today: Date, i: int)
    requires WindowShowsFocus(u) && u.calendarWeekStart.Some? && 0 <= i < 7
    ensures var ws := u.calendarWeekStart.value;
            var r := SetFocus(u, Some(Week(ws, tasks, u.focusDate, today)[i].date));
            r.calendarWeekStart == u.calendarWeekStart && r.focusDate == Some(AddDays(ws, i))
            && WindowShowsFocus(r)
  {
    var ws := u.calendarWeekStart.value;
    StartOfWeekOfDay(ws, i);
    StartOfWeekIsSunday(AddDays(ws, i));
  }

  /** Clearing the focus keeps the shown week and the window property. */
  lemma ClearFocusKeepsWeek(u: UiDoc)
    requires WindowShowsFocus(u)
    ensures var r := ClearFocus(u);
            WindowShowsFocus(r) && r.focusDate == None && r.calendarWeekStart == u.calendarWeekStart
            && SetFocus(u, None) == r
  {
  }

  /** Moving a whole number of weeks keeps the weekday. */
  lemma WeeksKeepWeekday(d: Date, delta: int)
    requires ValidDate(d)
    ensures Weekday(AddDays(d, 7 * delta)) == Weekday(d)
  {
    var k := DayNumber(d) + 1;
    assert k == 7 * (k / 7) + k % 7;
    assert DayNumber(AddDays(d, 7 * delta)) + 1 == 7 * (k / 7 + delta) + k % 7;
    SevenfoldMod(k / 7 + delta, k % 7);
  }

  /** Shifting keeps the window property: the new week starts `7 * delta` days after the old one,
      on a Sunday, and a focus date becomes that Sunday. */
  lemma ShiftWeekShows(u: UiDoc, delta: int, today: Date)
    requires WindowShowsFocus(u) && ValidDate(today)
    ensures var r := ShiftWeek(u, delta, today);
            WindowShowsFocus(r) && r.calendarWeekStart.Some?
            && DayNumber(r.calendarWeekStart.value) == DayNumber(ShiftBase(u, today)) + 7 * delta
            && (r.focusDate.Some? <==> u.focusDate.Some?)
            && (r.focusDate.Some? ==> r.focusDate == r.calendarWeekStart)
  {
    var base := ShiftBase(u, today);
    if u.calendarWeekStart.None? {
      StartOfWeekIsSunday(if u.focusDate.Some? then u.focusDate.value else today);
    }
    WeeksKeepWeekday(base, delta);
  }

  /** Two shifts are one shift by the sum. */
  lemma ShiftCompose(u: UiDoc, m: int, n: int, today: Date)
    requires UiDatesValid(u) && ValidDate(today)
    ensures UiDatesValid(ShiftWeek(u, m, today))
    ensures ShiftWeek(ShiftWeek(u, m, today), n, today) == ShiftWeek(u, m + n, today)
  {
    var base := ShiftBase(u, today);
    AddDaysAdd(base, 7 * m, 7 * n);
    assert 7 * m + 7 * n == 7 * (m + n);
  }

  /** The previous-week button undoes the next-week button (and any shift its opposite), once the
      calendar shows a week and any focus date is its first day. */
  lemma ShiftBackAndForth(u: UiDoc, n: int, today: Date)
    requires UiDatesValid(u) && ValidDate(today) && u.calendarWeekStart.Some?
    requires u.focusDate.Some? ==> u.focusDate == u.calendarWeekStart
    ensures ShiftWeek(ShiftWeek(u, n, today), -n, today) == u
  {
    ShiftCompose(u, n, -n, today);
    assert AddDays(u.calendarWeekStart.value, 0) == u.calendarWeekStart.value;
  }

  /** Choosing a class chip selects it; the empty value selects `'all'`. */
  lemma SelectClassChoice(u: UiDoc, value: string)
    ensures var r := SelectClass(u, value);
            r.selectedClassId != "" && ClassChoice(r.selectedClassId) == ClassChoice(value)
            && r == u.(selectedClassId := r.selectedClassId)
  {
  }

  /** After the repair the selection lists the tasks of an existing class, or every class. */
  lemma SettleClassValid(u: UiDoc, classes: seq<Class>)
    ensures var r := SettleClass(u, classes).selectedClassId;
            ClassChoice(r) == "all" || NamesClass(r, classes)
    ensures SettleClass(SettleClass(u, classes), classes) == SettleClass(u, classes)
  {
    SettledSelectionValid(u.selectedClassId, classes);
  }

  /** `uiState`: the UI document as the page keeps it. */
  class UiState {
    var theme: string
    var focusDate: Option<Date>
    var calendarWeekStart: Option<Date>
    var selectedClassId: string
    var scratchpad: Option<string>

    function Doc(): UiDoc
      reads this
    {
      UiDoc(theme, focusDate, calendarWeekStart, selectedClassId, scratchpad)
    }

    predicate Valid()
      reads this
    {
      UiDatesValid(Doc())
    }

    /** `loadUI()` followed by `ensureCalendarDefaults()` and `ensureUIStateDefaults()`. */
    constructor Load(stored: Option<UiDoc>, today: Date)
      requires stored.Some? ==> UiDatesValid(stored.value)
      requires ValidDate(today)
      ensures Valid() && Doc() == ShapeUi(LoadUi(stored), today)
    {
      var u := LoadUi(stored);
      var weekStart := u.calendarWeekStart;
      if weekStart.None? {
        weekStart := Some(StartOfWeek(if u.focusDate.Some? then u.focusDate.value else today));
      }
      var selected := u.selectedClassId;
      if selected == "" {
        selected := "all";
      }
      var notes := u.scratchpad;
      if notes.None? {
        notes := Some("");
      }
      theme := u.theme;
      focusDate := u.focusDate;
      calendarWeekStart := weekStart;
      selectedClassId := selected;
      scratchpad := notes;
    }

    /** `renderCalendar`'s lazy default: a missing week start becomes the focus (or today's) week. */
    method EnsureWeekStart(today: Date)
      requires Valid() && ValidDate(today)
      modifies this
      ensures Valid() && Doc() == CalendarDefaults(old(Doc()), today)
    {
      if calendarWeekStart.None? {
        calendarWeekStart := Some(StartOfWeek(if focusDate.Some? then focusDate.value else today));
      }
    }

    method ClearFocusDate()
      requires Valid()
      modifies this
      ensures Valid() && Doc() == ClearFocus(old(Doc()))
    {
      focusDate := None;
    }

    method SetFocusDate(d: Option<Date>)
      requires Valid() && (d.Some? ==> ValidDate(d.value))
      modifies this
      ensures Valid() && Doc() == SetFocus(old(Doc()), d)
    {
      if d.None? {
        ClearFocusDate();
        return;
      }
      focusDate := d;
      calendarWeekStart := Some(StartOfWeek(d.value));
    }

    method ShiftCalendarWeek(delta: int, today: Date)
      requires Valid() && ValidDate(today)
      modifies this
      ensures Valid() && Doc() == ShiftWeek(old(Doc()), delta, today)
    {
      var base := if calendarWeekStart.Some? then calendarWeekStart.value
                  else StartOfWeek(if focusDate.Some? then focusDate.value else today);
      var start := AddDays(base, 7 * delta);
      calendarWeekStart := Some(start);
      if focusDate.Some? {
        focusDate := Some(start);
      }
    }

    method SetSelectedClass(value: string)
      requires Valid()
      modifies this
      ensures Valid() && Doc() == SelectClass(old(Doc()), value)
    {
      selectedClassId := if value == "" then "all" else value;
    }

    /** `renderClassList`: a selection other than `'all'` that no class's id matches becomes `'all'`. */
    method SettleSelectedClass(classes: seq<Class>)
      requires Valid()
      modifies this
      ensures Valid() && Doc() == SettleClass(old(Doc()), classes)
    {
      var selected := if selectedClassId == "" then "all" else selectedClassId;
      var found := false;
      var k := 0;
      while k < |classes|
        invariant 0 <= k <= |classes|
        invariant found <==> exists j :: 0 <= j < k && IntToString(classes[j].id) == selected
      {
        if IntToString(classes[k].id) == selected {
          found := true;
        }
        k := k + 1;
      }
      if selected != "all" && !found {
        selectedClassId := "all";
      }
    }
  }
}
