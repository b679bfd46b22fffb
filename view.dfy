/**
  What `render` derives from the store before it draws anything: the list of cards after the
  search box, the status select, the priority chip, the class selection and the focus date; the
  remaining / total counts and the progress percent; the tag list; the per-class chip counts and
  the reset of a class selection that names no class.
  The date key `todayKey` (`todayStr` in `render`, `nowStr` in `isOverdue`) is an input.
 */
module View {
  import opened Options
  import opened Text
  import opened Seqs
  import opened Tasks
  import opened Dates

  /** The filter inputs of one render. `priorityChip` is the `data-priority` of the selected chip
      (None: no chip selected); `selectedClassId` and `focus` come from the UI document. */
  datatype Filters = Filters(
    search: string,
    status: string,
    priorityChip: Option<string>,
    selectedClassId: string,
    focus: Option<Date>,
    todayKey: string)

  /** `(searchInput.value || '').toLowerCase().trim()`. */
  function SearchTerm(raw: string): string {
    Trim(Lower(raw))
  }

  /** Some tag contains the term, ignoring case. */
  predicate TagIncludes(tags: seq<string>, term: string) {
    exists i :: 0 <= i < |tags| && Includes(Lower(tags[i]), term)
  }

  /** The search stage's test: the title, the description or a tag contains the term. */
  predicate MatchesSearch(t: Task, term: string) {
    Includes(Lower(t.title), term) || Includes(Lower(t.description), term) || TagIncludes(t.tags, term)
  }

  /** `isOverdue`: a due date that sorts before today's key, on a task not yet completed. */
  predicate IsOverdue(t: Task, todayKey: string) {
    HasDue(t) && !t.completed && StrLess(t.dueDate.value, todayKey)
  }

  /** The status stage: `'active'`, `'done'`, `'today'` and `'overdue'` restrict; any other value
      of the select keeps every task. */
  predicate StatusKeeps(t: Task, status: string, todayKey: string) {
    !(status == "active" && t.completed)
    && !(status == "done" && !t.completed)
    && !(status == "today" && t.dueDate != Some(todayKey))
    && !(status == "overdue" && !IsOverdue(t, todayKey))
  }

  /** `activePriorityFilterEl ? activePriorityFilterEl.dataset.priority || 'all' : 'all'`. */
  function PriorityChoice(chip: Option<string>): string {
    match chip
    case None => "all"
    case Some(v) => if v == "" then "all" else v
  }

  /** `uiState.selectedClassId || 'all'`. */
  function ClassChoice(selected: string): string {
    if selected == "" then "all" else selected
  }

  /** `String(t.classId)`. */
  function ClassText(c: ClassField): string {
    match c
    case Missing => "undefined"
    case NoClass => "null"
    case Assigned(id) => IntToString(id)
  }

  /** The focus stage: undated tasks, tasks due on or after the focus key, and unfinished tasks
      stay. */
  predicate FocusKeeps(t: Task, focusKey: string) {
    !HasDue(t) || !StrLess(t.dueDate.value, focusKey) || !t.completed
  }

  /** Each stage's verdict on one task; a stage that is switched off passes everything. */
  predicate SearchOk(t: Task, f: Filters) {
    var term := SearchTerm(f.search);
    term != "" ==> MatchesSearch(t, term)
  }

  predicate PriorityOk(t: Task, f: Filters) {
    var p := PriorityChoice(f.priorityChip);
    p != "" && p != "all" ==> t.priority == p
  }

  predicate ClassOk(t: Task, f: Filters) {
    var sel := ClassChoice(f.selectedClassId);
    sel != "" && sel != "all" ==> ClassText(t.classId) == sel
  }

  predicate FocusOk(t: Task, f: Filters) {
    f.focus.Some? ==> FocusKeeps(t, FormatKey(f.focus.value))
  }

  /** One task's verdict: it passes every stage. */
  predicate Keep(t: Task, f: Filters) {
    SearchOk(t, f) && StatusKeeps(t, f.status, f.todayKey) && PriorityOk(t, f) && ClassOk(t, f) && FocusOk(t, f)
  }

  /** `if (searchTerm) tasksToShow = tasksToShow.filter(...)`. */
  function Searched(tasks: seq<Task>, f: Filters): seq<Task> {
    var term := SearchTerm(f.search);
    if term != "" then Filter((t: Task) => MatchesSearch(t, term), tasks) else tasks
  }

  /** The status filter, which always runs. */
  function ByStatus(tasks: seq<Task>, f: Filters): seq<Task> {
    Filter((t: Task) => StatusKeeps(t, f.status, f.todayKey), tasks)
  }

  /** `if (priorityFilter && priorityFilter !== 'all') ...`. */
  function ByPriority(tasks: seq<Task>, f: Filters): seq<Task> {
    var p := PriorityChoice(f.priorityChip);
    if p != "" && p != "all" then Filter((t: Task) => t.priority == p, tasks) else tasks
  }

  /** `if (selectedClassId && selectedClassId !== 'all') ...`. */
  function ByClass(tasks: seq<Task>, f: Filters): seq<Task> {
    var sel := ClassChoice(f.selectedClassId);
    if sel != "" && sel != "all" then Filter((t: Task) => ClassText(t.classId) == sel, tasks) else tasks
  }

  /** `if (focusDate) ...`. */
  function ByFocus(tasks: seq<Task>, f: Filters): seq<Task> {
    if f.focus.Some? then Filter((t: Task) => FocusKeeps(t, FormatKey(f.focus.value)), tasks) else tasks
  }

  /** The cards `render` lists, stage by stage in the order it applies them. The staged pipeline
      is one filter by `Keep`: the listed cards are the tasks that pass every stage, in store
      order. */
  function Visible(tasks: seq<Task>, f: Filters): (r: seq<Task>)
    ensures r == Filter((t: Task) => Keep(t, f), tasks)
  {
    PipelineIsFilter(tasks, f);
    ByFocus(ByClass(ByPriority(ByStatus(Searched(tasks, f), f), f), f), f)
  }

  /** A stage that is switched on filters by its test; one that is off passes everything, which is
      filtering by "off or the test". */
  lemma Stage(on: bool, test: Task -> bool, keep: Task -> bool, s: seq<Task>)
    requires forall t :: keep(t) == (on ==> test(t))
    ensures (if on then Filter(test, s) else s) == Filter(keep, s)
  {
    if on {
      FilterSame(test, keep, s);
    } else {
      FilterKeepsAll(keep, s);
    }
  }

  lemma SearchedIsFilter(tasks: seq<Task>, f: Filters)
    ensures Searched(tasks, f) == Filter((t: Task) => SearchOk(t, f), tasks)
  {
    var term := SearchTerm(f.search);
    Stage(term != "", (t: Task) => MatchesSearch(t, term), (t: Task) => SearchOk(t, f), tasks);
  }

  lemma ByPriorityIsFilter(tasks: seq<Task>, f: Filters)
    ensures ByPriority(tasks, f) == Filter((t: Task) => PriorityOk(t, f), tasks)
  {
    var p := PriorityChoice(f.priorityChip);
    Stage(p != "" && p != "all", (t: Task) => t.priority == p, (t: Task) => PriorityOk(t, f), tasks);
  }

  lemma ByClassIsFilter(tasks: seq<Task>, f: Filters)
    ensures ByClass(tasks, f) == Filter((t: Task) => ClassOk(t, f), tasks)
  {
    var sel := ClassChoice(f.selectedClassId);
    Stage(sel != "" && sel != "all", (t: Task) => ClassText(t.classId) == sel, (t: Task) => ClassOk(t, f), tasks);
  }

  lemma ByFocusIsFilter(tasks: seq<Task>, f: Filters)
    ensures ByFocus(tasks, f) == Filter((t: Task) => FocusOk(t, f), tasks)
  {
    if f.focus.Some? {
      Stage(true, (t: Task) => FocusKeeps(t, FormatKey(f.focus.value)), (t: Task) => FocusOk(t, f), tasks);
    } else {
      Stage(false, (t: Task) => true, (t: Task) => FocusOk(t, f), tasks);
    }
  }

  /** Composing the five stages is filtering once by their conjunction. */
  lemma PipelineIsFilter(tasks: seq<Task>, f: Filters)
    ensures ByFocus(ByClass(ByPriority(ByStatus(Searched(tasks, f), f), f), f), f)
            == Filter((t: Task) => Keep(t, f), tasks)
  {
    var k1 := (t: Task) => SearchOk(t, f);
    var k2 := (t: Task) => StatusKeeps(t, f.status, f.todayKey);
    var k12 := (t: Task) => SearchOk(t, f) && StatusKeeps(t, f.status, f.todayKey);
    var k3 := (t: Task) => PriorityOk(t, f);
    var k123 := (t: Task) => k12(t) && PriorityOk(t, f);
    var k4 := (t: Task) => ClassOk(t, f);
    var k1234 := (t: Task) => k123(t) && ClassOk(t, f);
    var k5 := (t: Task) => FocusOk(t, f);
    var a := Searched(tasks, f);
    SearchedIsFilter(tasks, f);
    var b := ByStatus(a, f);
    FilterCompose(k1, k2, k12, tasks);
    var c := ByPriority(b, f);
    ByPriorityIsFilter(b, f);
    FilterCompose(k12, k3, k123, tasks);
    var d := ByClass(c, f);
    ByClassIsFilter(c, f);
    FilterCompose(k123, k4, k1234, tasks);
    ByFocusIsFilter(d, f);
    FilterCompose(k1234, k5, (t: Task) => Keep(t, f), tasks);
  }

  /** The listed cards keep the store's order, and a task is listed exactly when it passes every
      stage. */
  lemma VisibleMembers(tasks: seq<Task>, f: Filters)
    ensures Subsequence(Visible(tasks, f), tasks)
    ensures forall t :: t in Visible(tasks, f) <==> t in tasks && Keep(t, f)
  {
  }

  /** What each status value admits: `'overdue'` never lists a completed or undated task. */
  lemma StatusStage(tasks: seq<Task>, f: Filters)
    ensures f.status == "active" ==> forall t :: t in Visible(tasks, f) ==> !t.completed
    ensures f.status == "done" ==> forall t :: t in Visible(tasks, f) ==> t.completed
    ensures f.status == "today" ==> forall t :: t in Visible(tasks, f) ==> t.dueDate == Some(f.todayKey)
    ensures f.status == "overdue" ==> forall t :: t in Visible(tasks, f) ==>
              HasDue(t) && !t.completed && StrLess(t.dueDate.value, f.todayKey)
  {
    VisibleMembers(tasks, f);
  }

  /** The focus stage keeps a task exactly when it is undated, due on or after the focus date, or
      not completed. */
  lemma FocusStage(tasks: seq<Task>, f: Filters, t: Task)
    requires f.focus.Some? && t in tasks
    requires SearchTerm(f.search) == "" && f.status == "all"
    requires PriorityChoice(f.priorityChip) == "all" && ClassChoice(f.selectedClassId) == "all"
    ensures t in Visible(tasks, f) <==>
              !HasDue(t) || !StrLess(t.dueDate.value, FormatKey(f.focus.value)) || !t.completed
  {
    VisibleMembers(tasks, f);
  }

  /** For due dates written as canonical keys, the focus test is day order: "on or after". */
  lemma FocusKeepsDays(t: Task, due: Date, focus: Date)
    requires ValidDate(due) && FourDigitYear(due) && ValidDate(focus) && FourDigitYear(focus)
    requires t.dueDate == Some(FormatKey(due))
    ensures FocusKeeps(t, FormatKey(focus)) <==> DayNumber(due) >= DayNumber(focus) || !t.completed
  {
    KeyOrder(due, focus);
  }

  /** For due dates written as canonical keys, `isOverdue` is "due on an earlier day and not
      completed"; an undated task is never overdue. */
  lemma OverdueDays(t: Task, due: Date, today: Date)
    requires ValidDate(due) && FourDigitYear(due) && ValidDate(today) && FourDigitYear(today)
    ensures !HasDue(t) ==> !IsOverdue(t, FormatKey(today))
    ensures t.dueDate == Some(FormatKey(due)) ==>
              (IsOverdue(t, FormatKey(today)) <==> !t.completed && DayNumber(due) < DayNumber(today))
  {
    KeyOrder(due, today);
  }

  /** Clicking a tag puts it in the search box; every task carrying that tag passes the search
      stage, because the trimmed term lies inside the lower-cased tag. */
  lemma TagSearchFinds(t: Task, tag: string)
    requires tag in t.tags
    ensures MatchesSearch(t, SearchTerm(tag))
  {
    var s := Lower(tag);
    TrimIsInfix(s);
    var i, j :| StripsTo(s, Trim(s), i, j);
    assert OccursAt(s, Trim(s), i);
    IncludesAt(s, Trim(s));
    var k :| 0 <= k < |t.tags| && t.tags[k] == tag;
    assert Includes(Lower(t.tags[k]), SearchTerm(tag));
  }

  /** `state.tasks.filter(t => !t.completed).length`: none remain exactly when all are done. */
  function Remaining(tasks: seq<Task>): (r: nat)
    ensures r <= |tasks|
    ensures r == 0 <==> forall i :: 0 <= i < |tasks| ==> tasks[i].completed
  {
    |Filter((t: Task) => !t.completed, tasks)|
  }

  /** `state.tasks.filter(t => t.completed).length`: none is done exactly when all remain. */
  function CompletedCount(tasks: seq<Task>): (r: nat)
    ensures r <= |tasks|
    ensures r == 0 <==> forall i :: 0 <= i < |tasks| ==> !tasks[i].completed
  {
    |Filter((t: Task) => t.completed, tasks)|
  }

  /** Remaining plus completed is the task count. */
  lemma CountsAddUp(tasks: seq<Task>)
    ensures Remaining(tasks) + CompletedCount(tasks) == |tasks|
  {
    FilterSplit((t: Task) => !t.completed, (t: Task) => t.completed, tasks);
  }

  /** `updateProgressUI`'s percent: `Math.round(completed / total * 100)`, 0 when there is
      nothing. Rounding half up is `floor(x + 1/2)`, which on `(200 c + total) / (2 total)` is
      integer division. The percent lies in 0..100 and is `completed / total * 100` rounded to the
      nearest integer, halves up: `r - 1/2 <= 100 c / total < r + 1/2`. */
  function Progress(completed: nat, remaining: nat): (r: int)
    ensures 0 <= r <= 100
    ensures completed + remaining == 0 ==> r == 0
    ensures var total := completed + remaining;
            total > 0 ==> 2 * total * r <= 200 * completed + total < 2 * total * r + 2 * total
  {
    var total := completed + remaining;
    if total == 0 then 0
    else
      RoundedPercent(completed, total);
      (200 * completed + total) / (2 * total)
  }

  lemma RoundedPercent(completed: nat, total: nat)
    requires 0 < total && completed <= total
    ensures var r := (200 * completed + total) / (2 * total);
            0 <= r <= 100 && 2 * total * r <= 200 * completed + total < 2 * total * r + 2 * total
  {
    var n := 200 * completed + total;
    var d := 2 * total;
    var r := n / d;
    assert n == d * r + n % d && 0 <= n % d < d;
    assert n <= 201 * total;
    if r > 100 {
      assert d * r >= d * 101 by {
        MulMonotone(d, 101, r);
      }
      assert false;
    }
  }

  lemma MulMonotone(d: nat, a: int, b: int)
    requires a <= b
    ensures d * a <= d * b
  {
  }

  /** A few values, as `Math.round` gives them. */
  lemma ProgressExamples()
    ensures Progress(0, 0) == 0 && Progress(3, 1) == 75 && Progress(1, 2) == 33
    ensures Progress(2, 1) == 67 && Progress(1, 7) == 13 && Progress(4, 0) == 100
  {
  }

  /** The progress of a store: the counts of completed and remaining tasks. */
  lemma StoreProgress(tasks: seq<Task>)
    ensures var total := |tasks|; var r := Progress(CompletedCount(tasks), Remaining(tasks));
            0 <= r <= 100 && (total == 0 ==> r == 0)
            && (total > 0 ==> 2 * total * r <= 200 * CompletedCount(tasks) + total < 2 * total * r + 2 * total)
  {
    CountsAddUp(tasks);
  }

  /** Every tag of every task, task by task in store order. */
  function AllTags(tasks: seq<Task>): seq<string> {
    if tasks == [] then [] else AllTags(tasks[..|tasks| - 1]) + tasks[|tasks| - 1].tags
  }

  /** The contents of a JavaScript `Set` after adding the elements of `s` one by one: each value
      once, in order of first appearance. */
  function Dedup(s: seq<string>): seq<string> {
    if s == [] then []
    else
      var d := Dedup(s[..|s| - 1]);
      if s[|s| - 1] in d then d else d + [s[|s| - 1]]
  }

  /** The position of the first occurrence of `x` in `s`. */
  function FirstAt(s: seq<string>, x: string): int {
    FirstIndex((y: string) => y == x, s)
  }

  /** `renderTagList`'s set: for each task in order, each of its tags added to a `Set`. */
  method TagUniverse(tasks: seq<Task>) returns (tags: seq<string>)
    ensures tags == Dedup(AllTags(tasks))
  {
    tags := [];
    var i := 0;
    while i < |tasks|
      invariant 0 <= i <= |tasks|
      invariant tags == Dedup(AllTags(tasks[..i]))
    {
      tags := AddTags(tags, AllTags(tasks[..i]), tasks[i].tags);
      AllTagsSnoc(tasks, i);
      i := i + 1;
    }
    assert tasks[..i] == tasks;
  }

  /** The inner `forEach`: adding one task's tags to the `Set` of the tags before it. */
  method AddTags(seen: seq<string>, pre: seq<string>, own: seq<string>) returns (tags: seq<string>)
    requires seen == Dedup(pre)
    ensures tags == Dedup(pre + own)
  {
    tags := seen;
    var j := 0;
    assert pre + own[..0] == pre;
    while j < |own|
      invariant 0 <= j <= |own|
      invariant tags == Dedup(pre + own[..j])
    {
      AddTagStep(pre, own, j, tags);
      if own[j] !in tags { tags := tags + [own[j]]; }
      j := j + 1;
    }
    assert own[..j] == own;
  }

  /** Adding the next tag to the `Set` of the tags so far. */
  lemma AddTagStep(pre: seq<string>, own: seq<string>, j: nat, tags: seq<string>)
    requires j < |own| && tags == Dedup(pre + own[..j])
    ensures (if own[j] in tags then tags else tags + [own[j]]) == Dedup(pre + own[..j + 1])
  {
    SnocTag(pre, own, j);
    DedupSnoc(pre + own[..j], own[j]);
  }

  /** One more value added to the `Set`. */
  lemma DedupSnoc(x: seq<string>, e: string)
    ensures Dedup(x + [e]) == if e in Dedup(x) then Dedup(x) else Dedup(x) + [e]
  {
    assert (x + [e])[..|x|] == x;
  }

  lemma SnocTag(pre: seq<string>, own: seq<string>, j: nat)
    requires j < |own|
    ensures pre + own[..j + 1] == (pre + own[..j]) + [own[j]]
  {
    assert own[..j + 1] == own[..j] + [own[j]];
  }

  lemma AllTagsSnoc(tasks: seq<Task>, i: nat)
    requires i < |tasks|
    ensures AllTags(tasks[..i + 1]) == AllTags(tasks[..i]) + tasks[i].tags
  {
    assert tasks[..i + 1][..i] == tasks[..i];
  }

  /** The set holds each value once, and exactly the values that occur. */
  lemma {:induction false} DedupElements(s: seq<string>)
    ensures Distinct(Dedup(s))
    ensures forall x :: x in Dedup(s) <==> x in s
  {
    if s != [] {
      var p := s[..|s| - 1];
      DedupElements(p);
      assert s == p + [s[|s| - 1]];
    }
  }

  /** The values of `d` occur in `s`, and in `d` in the order of their first occurrences in `s`. */
  predicate FirstAppearanceOrder(d: seq<string>, s: seq<string>) {
    forall a, b :: 0 <= a < b < |d| ==> 0 <= FirstAt(s, d[a]) < FirstAt(s, d[b])
  }

  /** Appending `x` keeps the first positions of the values already there; a new value's first
      position is the end. */
  lemma FirstAtSnoc(p: seq<string>, x: string)
    ensures forall y :: y in p ==> FirstAt(p + [x], y) == FirstAt(p, y) && 0 <= FirstAt(p, y) < |p|
    ensures x !in p ==> FirstAt(p + [x], x) == |p|
  {
    forall y | y in p
      ensures FirstAt(p + [x], y) == FirstAt(p, y) && 0 <= FirstAt(p, y) < |p|
    {
      FirstIndexSnoc((z: string) => z == y, p, x);
    }
    FirstIndexSnoc((z: string) => z == x, p, x);
  }

  /** The set lists values in order of first appearance. */
  lemma {:induction false} DedupOrder(s: seq<string>)
    ensures FirstAppearanceOrder(Dedup(s), s)
  {
    if s != [] {
      var p := s[..|s| - 1];
      var x := s[|s| - 1];
      assert s == p + [x];
      DedupOrder(p);
      DedupElements(p);
      var d := Dedup(p);
      FirstAtSnoc(p, x);
      if x !in d {
        assert Dedup(s) == d + [x];
        forall a, b | 0 <= a < b < |d| + 1
          ensures 0 <= FirstAt(s, (d + [x])[a]) < FirstAt(s, (d + [x])[b])
        {
          assert (d + [x])[a] == d[a] && d[a] in p;
          if b < |d| {
            assert (d + [x])[b] == d[b] && d[b] in p;
          }
        }
      } else {
        assert Dedup(s) == d;
        forall a, b | 0 <= a < b < |d|
          ensures 0 <= FirstAt(s, d[a]) < FirstAt(s, d[b])
        {
          assert d[a] in p && d[b] in p;
        }
      }
    }
  }

  /** A tag is listed exactly when some task carries it; "No tags yet" shows when none does. */
  lemma {:induction false} AllTagsMembers(tasks: seq<Task>, tag: string)
    ensures tag in AllTags(tasks) <==> exists i :: 0 <= i < |tasks| && tag in tasks[i].tags
  {
    if tasks != [] {
      var p := tasks[..|tasks| - 1];
      AllTagsMembers(p, tag);
      if tag in tasks[|tasks| - 1].tags {
        assert tag in AllTags(tasks)[|AllTags(p)|..];
      }
      if exists i :: 0 <= i < |tasks| && tag in tasks[i].tags {
        var i :| 0 <= i < |tasks| && tag in tasks[i].tags;
        if i < |p| {
          assert tasks[i] == p[i];
        }
      }
    }
  }

  /** `state.tasks.filter(t => t.classId === cls.id).length`: strict equality, so only tasks
      assigned that class count. */
  function ClassCount(tasks: seq<Task>, id: int): (r: nat)
    ensures r <= |tasks|
    ensures r == 0 <==> forall i :: 0 <= i < |tasks| ==> tasks[i].classId != Assigned(id)
  {
    |Filter((t: Task) => t.classId == Assigned(id), tasks)|
  }

  /** `String(classId)` names class `id` exactly for tasks assigned that class, over the
      `classId` values a `ClassField` represents (absent, `null`, an integer). */
  lemma ClassTextIs(c: ClassField, id: int)
    ensures ClassText(c) == IntToString(id) <==> c == Assigned(id)
  {
    IntToStringStart(id);
    match c
    case Missing =>
      assert ClassText(c)[0] == 'u';
    case NoClass =>
      assert ClassText(c)[0] == 'n';
    case Assigned(n) =>
      if IntToString(n) == IntToString(id) {
        IntToStringInjective(n, id);
      }
  }

  /** A class chip's count is the number of cards listed when that chip is the only filter,
      for tasks whose `classId` is one a `ClassField` represents. */
  lemma ClassChipCount(tasks: seq<Task>, id: int, todayKey: string)
    ensures ClassCount(tasks, id) == |Visible(tasks, Filters("", "all", None, IntToString(id), None, todayKey))|
  {
    var f := Filters("", "all", None, IntToString(id), None, todayKey);
    assert SearchTerm("") == "" by {
      TrimBlank(Lower(""));
    }
    IntToStringStart(id);
    assert IntToString(id) != "all" by {
      assert "all"[0] == 'a';
    }
    forall t: Task ensures Keep(t, f) == (t.classId == Assigned(id)) {
      ClassTextIs(t.classId, id);
    }
    FilterSame((t: Task) => Keep(t, f), (t: Task) => t.classId == Assigned(id), tasks);
  }

  /** Some class's id is written `selected`. */
  predicate NamesClass(selected: string, classes: seq<Class>) {
    exists k :: 0 <= k < |classes| && IntToString(classes[k].id) == selected
  }

  /** `renderClassList`'s repair: a selection other than `'all'` that names no class becomes
      `'all'`; anything else is left as it was. */
  function SettledSelection(selected: string, classes: seq<Class>): string {
    var choice := ClassChoice(selected);
    if choice != "all" && !NamesClass(choice, classes) then "all" else selected
  }

  /** After the repair the selection is empty, `'all'`, or a class's id; a selection naming a class
      is kept; repairing twice is repairing once. */
  lemma SettledSelectionValid(selected: string, classes: seq<Class>)
    ensures var r := SettledSelection(selected, classes);
            r == "" || r == "all" || NamesClass(r, classes)
    ensures NamesClass(selected, classes) ==> SettledSelection(selected, classes) == selected
    ensures SettledSelection(SettledSelection(selected, classes), classes) == SettledSelection(selected, classes)
  {
  }
}
