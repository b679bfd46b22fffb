/**
  `renderCalendar`'s week strip: the number of tasks due on each date key (the `reduce` into an
  object), and the seven cells from the week start, each with its date, its key, its count and
  whether it is the focus date or today.
 */
module Calendar {
  import opened Options
  import opened Seqs
  import opened Tasks
  import opened Dates

  /** `acc[key] || 0`. */
  function CountOf(counts: map<string, nat>, key: string): nat {
    if key in counts then counts[key] else 0
  }

  /** The `reduce`: tasks in order, each one with a due date adding one to its key's count. */
  function CountByDate(tasks: seq<Task>): map<string, nat> {
    if tasks == [] then map[]
    else
      var acc := CountByDate(tasks[..|tasks| - 1]);
      var t := tasks[|tasks| - 1];
      if !HasDue(t) then acc else acc[t.dueDate.value := CountOf(acc, t.dueDate.value) + 1]
  }

  /** The tasks whose due date is the key. */
  function TasksDueOn(tasks: seq<Task>, key: string): seq<Task> {
    Filter((t: Task) => HasDue(t) && t.dueDate.value == key, tasks)
  }

  /** A key's count is the number of tasks due on it; keys no task is due on count 0. */
  lemma {:induction false} CountByDateCounts(tasks: seq<Task>, key: string)
    ensures CountOf(CountByDate(tasks), key) == |TasksDueOn(tasks, key)|
  {
    if tasks != [] {
      var p := tasks[..|tasks| - 1];
      var t := tasks[|tasks| - 1];
      var due := (t: Task) => HasDue(t) && t.dueDate.value == key;
      CountByDateCounts(p, key);
      assert tasks == p + [t];
      FilterConcat(due, p, [t]);
      assert |TasksDueOn(tasks, key)| == |TasksDueOn(p, key)| + |Filter(due, [t])|;
      assert [t][1..] == [];
      if due(t) {
        assert |Filter(due, [t])| == 1;
      } else {
        assert Filter(due, [t]) == [];
      }
    }
  }

  /** One cell of the strip. */
  datatype Cell = Cell(date: Date, key: string, count: nat, isFocus: bool, isToday: bool)

  /** The seven cells from `weekStart`: `iso === uiState.focusDate` marks the focus cell and
      `iso === getTodayISO()` today's. */
  function Week(weekStart: Date, tasks: seq<Task>, focus: Option<Date>, today: Date): seq<Cell>
    requires ValidDate(weekStart)
  {
    var counts := CountByDate(tasks);
    seq(7, i requires 0 <= i < 7 =>
      var d := AddDays(weekStart, i);
      var key := FormatKey(d);
      Cell(d, key, CountOf(counts, key), focus.Some? && key == FormatKey(focus.value), key == FormatKey(today)))
  }

  /** The cells are seven consecutive days from the week start, Sunday to Saturday when it is a
      Sunday; each shows the number of tasks due that day; for four-digit years a cell is marked
      today or focus exactly when its date is today or the focus date. */
  lemma WeekCells(weekStart: Date, tasks: seq<Task>, focus: Option<Date>, today: Date)
    requires ValidDate(weekStart) && ValidDate(today) && FourDigitYear(today)
    requires focus.Some? ==> ValidDate(focus.value) && FourDigitYear(focus.value)
    ensures var w := Week(weekStart, tasks, focus, today);
            |w| == 7
            && (forall i :: 0 <= i < 7 ==>
                  ValidDate(w[i].date) && DayNumber(w[i].date) == DayNumber(weekStart) + i
                  && w[i].key == FormatKey(w[i].date)
                  && w[i].count == |TasksDueOn(tasks, w[i].key)|)
            && (Weekday(weekStart) == 0 ==> forall i :: 0 <= i < 7 ==> Weekday(w[i].date) == i)
            && (forall i :: 0 <= i < 7 && FourDigitYear(w[i].date) ==>
                  (w[i].isToday <==> w[i].date == today)
                  && (w[i].isFocus <==> focus == Some(w[i].date)))
  {
    var w := Week(weekStart, tasks, focus, today);
    forall i | 0 <= i < 7
      ensures w[i].count == |TasksDueOn(tasks, w[i].key)|
      && (Weekday(weekStart) == 0 ==> Weekday(w[i].date) == i)
      && (FourDigitYear(w[i].date) ==>
            (w[i].isToday <==> w[i].date == today) && (w[i].isFocus <==> focus == Some(w[i].date)))
    {
      CountByDateCounts(tasks, w[i].key);
      if Weekday(weekStart) == 0 {
        StartOfWeekOfDay(weekStart, i);
      }
      if FourDigitYear(w[i].date) {
        KeyOrder(w[i].date, today);
        if focus.Some? {
          KeyOrder(w[i].date, focus.value);
        }
      }
    }
  }
}
