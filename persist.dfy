/**
  The two stored documents (task state and UI preferences), their defaults, loading with a
  fallback to a fresh default copy, and the "ensure" migrations that backfill fields missing
  from documents written by older versions.
 */
module Persist {
  import opened Options
  import opened Tasks
  import opened Dates

  /** The task-state document as parsed from storage. `None` marks a field that is absent or not of
      the expected type (`classes` not an array, `nextClassId` not a number). */
  datatype StateDoc = StateDoc(tasks: seq<Task>, nextId: int, classes: Option<seq<Class>>, nextClassId: Option<int>)

  /** `DEFAULT_STATE`. */
  function DefaultState(): StateDoc {
    StateDoc([], 1, Some([]), Some(1))
  }

  /** `loadState`: the parsed document, or a fresh copy of the default when nothing is stored or
      the stored text does not parse (both are `None` here). */
  function LoadState(stored: Option<StateDoc>): StateDoc {
    match stored
    case None => DefaultState()
    case Some(d) => d
  }

  /** The per-task step of `ensureStateShape`: a task without a `classId` property gets `null`. */
  function WithClassField(t: Task): Task {
    if t.classId == Missing then t.(classId := NoClass) else t
  }

  /** Every field `ensureStateShape` guarantees is present and well typed. */
  predicate StateShaped(d: StateDoc) {
    d.classes.Some? && d.nextClassId.Some? && forall i :: 0 <= i < |d.tasks| ==> d.tasks[i].classId != Missing
  }

  /** `ensureStateShape`: backfills `classes`, `nextClassId` and each task's `classId`, and leaves
      every value that was already present as it was. */
  function ShapeState(d: StateDoc): (r: StateDoc)
    ensures StateShaped(r)
    ensures r.nextId == d.nextId && |r.tasks| == |d.tasks|
    ensures d.classes.Some? ==> r.classes == d.classes
    ensures d.nextClassId.Some? ==> r.nextClassId == d.nextClassId
    ensures d.classes.None? ==> r.classes == Some([])
    ensures d.nextClassId.None? ==> r.nextClassId == Some(1)
    ensures forall i :: 0 <= i < |d.tasks| ==>
              r.tasks[i] == d.tasks[i].(classId := r.tasks[i].classId)
              && (d.tasks[i].classId != Missing ==> r.tasks[i] == d.tasks[i])
              && (d.tasks[i].classId == Missing ==> r.tasks[i].classId == NoClass)
  {
    StateDoc(seq(|d.tasks|, i requires 0 <= i < |d.tasks| => WithClassField(d.tasks[i])),
             d.nextId,
             if d.classes.Some? then d.classes else Some([]),
             if d.nextClassId.Some? then d.nextClassId else Some(1))
  }

  /** A document that already has every field is left alone, so running the migration twice is
      running it once. */
  lemma ShapeStateIdempotent(d: StateDoc)
    ensures StateShaped(d) ==> ShapeState(d) == d
    ensures ShapeState(ShapeState(d)) == ShapeState(d)
  {
    if StateShaped(d) {
      assert ShapeState(d).tasks == d.tasks;
    }
    assert ShapeState(ShapeState(d)).tasks == ShapeState(d).tasks;
  }

  /** `ensureStateShape` as app.js runs it: one pass over the tasks, then the two counters' fields. */
  method EnsureStateShape(d: StateDoc) returns (r: StateDoc)
    ensures r == ShapeState(d)
  {
    var classes := d.classes;
    if classes.None? {
      classes := Some([]);
    }
    var nextClassId := d.nextClassId;
    if nextClassId.None? {
      nextClassId := Some(1);
    }
    var tasks := d.tasks;
    var i := 0;
    while i < |tasks|
      invariant 0 <= i <= |tasks| == |d.tasks|
      invariant forall k :: 0 <= k < i ==> tasks[k] == WithClassField(d.tasks[k])
      invariant forall k :: i <= k < |tasks| ==> tasks[k] == d.tasks[k]
    {
      if tasks[i].classId == Missing {
        tasks := tasks[i := tasks[i].(classId := NoClass)];
      }
      i := i + 1;
    }
    r := StateDoc(tasks, d.nextId, classes, nextClassId);
  }

  /** The UI-preferences document. `selectedClassId == ""` stands for any falsy value, `scratchpad ==
      None` for a value that is not a string, `None` dates for `null` or absent. */
  datatype UiDoc = UiDoc(
    theme: string,
    focusDate: Option<Date>,
    calendarWeekStart: Option<Date>,
    selectedClassId: string,
    scratchpad: Option<string>)

  /** `DEFAULT_UI`. */
  function DefaultUi(): UiDoc {
    UiDoc("default", None, None, "all", Some(""))
  }

  /** `loadUI`: the parsed document or a fresh default copy. */
  function LoadUi(stored: Option<UiDoc>): UiDoc {
    match stored
    case None => DefaultUi()
    case Some(u) => u
  }

  /** The dates held in the document are real calendar dates. */
  predicate UiDatesValid(u: UiDoc) {
    (u.focusDate.Some? ==> ValidDate(u.focusDate.value))
    && (u.calendarWeekStart.Some? ==> ValidDate(u.calendarWeekStart.value))
  }

  /** `ensureCalendarDefaults`: without a week start, the week of the focus date (else of today). */
  function CalendarDefaults(u: UiDoc, today: Date): (r: UiDoc)
    requires UiDatesValid(u) && ValidDate(today)
    ensures UiDatesValid(r) && r.calendarWeekStart.Some?
    ensures u.calendarWeekStart.Some? ==> r == u
    ensures u.calendarWeekStart.None? ==>
              r == u.(calendarWeekStart := r.calendarWeekStart)
              && Weekday(r.calendarWeekStart.value) == 0
              && var anchor := if u.focusDate.Some? then u.focusDate.value else today;
                 0 <= DayNumber(anchor) - DayNumber(r.calendarWeekStart.value) < 7
  {
    if u.calendarWeekStart.Some? then u
    else
      var anchor := if u.focusDate.Some? then u.focusDate.value else today;
      StartOfWeekIsSunday(anchor);
      u.(calendarWeekStart := Some(StartOfWeek(anchor)))
  }

  /** `ensureUIStateDefaults`: a falsy class selection becomes `'all'`, a non-string scratchpad `''`. */
  function UiDefaults(u: UiDoc): (r: UiDoc)
    ensures r.selectedClassId != "" && r.scratchpad.Some?
    ensures u.selectedClassId != "" ==> r.selectedClassId == u.selectedClassId
    ensures u.scratchpad.Some? ==> r.scratchpad == u.scratchpad
    ensures u.selectedClassId == "" ==> r.selectedClassId == "all"
    ensures u.scratchpad.None? ==> r.scratchpad == Some("")
    ensures r.theme == u.theme && r.focusDate == u.focusDate && r.calendarWeekStart == u.calendarWeekStart
  {
    u.(selectedClassId := if u.selectedClassId == "" then "all" else u.selectedClassId,
       scratchpad := if u.scratchpad.None? then Some("") else u.scratchpad)
  }

  /** Every field the two UI migrations guarantee. */
  predicate UiShaped(u: UiDoc) {
    u.calendarWeekStart.Some? && u.selectedClassId != "" && u.scratchpad.Some?
  }

  /** The UI migrations as app.js runs them at start-up (calendar first, then the rest). */
  function ShapeUi(u: UiDoc, today: Date): UiDoc
    requires UiDatesValid(u) && ValidDate(today)
  {
    UiDefaults(CalendarDefaults(u, today))
  }

  /** The UI migrations only fill gaps: a shaped document is left alone, so a second run changes
      nothing, and the result is shaped. */
  lemma ShapeUiIdempotent(u: UiDoc, today: Date)
    requires UiDatesValid(u) && ValidDate(today)
    ensures UiShaped(ShapeUi(u, today)) && UiDatesValid(ShapeUi(u, today))
    ensures UiShaped(u) ==> ShapeUi(u, today) == u
    ensures ShapeUi(ShapeUi(u, today), today) == ShapeUi(u, today)
  {
  }
}
