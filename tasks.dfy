/**
  The work list's entities (tasks, subtasks, classes) and what the task dialog turns its inputs
  into: the trimmed title, the tag and subtask lists, the numbered subtasks of a new task and the
  reconciliation of an edited task's subtasks with the ones it had.
 */
module Tasks {
  import opened Options
  import opened Text
  import opened Seqs
  import Dates

  /** A task's `classId` property: absent (documents older than classes), `null`, or a class id.
      A `classId` of another JSON type, which an imported file could carry, is not represented. */
  datatype ClassField = Missing | NoClass | Assigned(id: int)

  datatype Subtask = Subtask(id: int, title: string, done: bool)

  datatype Task = Task(
    id: int,
    title: string,
    description: string,
    dueDate: Option<string>,
    priority: string,
    tags: seq<string>,
    classId: ClassField,
    subtasks: seq<Subtask>,
    completed: bool,
    createdAt: string)

  datatype Class = Class(id: int, name: string)

  /** The task dialog's inputs as typed; `classChoice` is the class select's value as a number. */
  datatype TaskForm = TaskForm(
    title: string,
    description: string,
    due: string,
    priority: string,
    tags: string,
    subtasks: string,
    classChoice: Option<int>)

  /** `!task.dueDate` is false: the task has a (non-empty) due date. */
  predicate HasDue(t: Task) {
    t.dueDate.Some? && t.dueDate.value != ""
  }

  /** `Boolean` on a string. */
  predicate NonEmpty(s: string) {
    s != []
  }

  /** Each string trimmed (`.map(s => s.trim())`). */
  function TrimAll(pieces: seq<string>): (r: seq<string>)
    ensures |r| == |pieces|
  {
    seq(|pieces|, i requires 0 <= i < |pieces| => Trim(pieces[i]))
  }

  /** `pieces.map(x => x.trim()).filter(Boolean)`, one piece at a time. */
  function TrimmedNonEmpty(pieces: seq<string>): (r: seq<string>)
  {
    if pieces == [] then []
    else
      var t := Trim(pieces[0]);
      (if t == [] then [] else [t]) + TrimmedNonEmpty(pieces[1..])
  }

  /** The piecewise definition is the map followed by the filter. */
  lemma {:induction false} TrimmedNonEmptyIsMapFilter(pieces: seq<string>)
    ensures TrimmedNonEmpty(pieces) == Filter(NonEmpty, TrimAll(pieces))
  {
    if pieces != [] {
      TrimmedNonEmptyIsMapFilter(pieces[1..]);
      assert TrimAll(pieces)[1..] == TrimAll(pieces[1..]);
    }
  }

  /** `s.split(sep).map(x => x.trim()).filter(Boolean)`: the non-blank entries, trimmed, in order. */
  function Entries(s: string, sep: char): seq<string>
  {
    TrimmedNonEmpty(Split(s, sep))
  }

  /** Entries are non-empty, trimmed and free of the separator. */
  lemma EntriesClean(s: string, sep: char)
    ensures Clean(Entries(s, sep), sep)
  {
    TrimmedPiecesClean(Split(s, sep), sep);
  }

  /** Pieces free of `sep`, trimmed and with the empty ones dropped, are clean. */
  lemma {:induction false} TrimmedPiecesClean(pieces: seq<string>, sep: char)
    requires forall i :: 0 <= i < |pieces| ==> sep !in pieces[i]
    ensures Clean(TrimmedNonEmpty(pieces), sep)
  {
    if pieces != [] {
      TrimmedPiecesClean(pieces[1..], sep);
      var t := Trim(pieces[0]);
      TrimIdempotent(pieces[0]);
      TrimIsInfix(pieces[0]);
      var a, b :| StripsTo(pieces[0], t, a, b);
      assert forall c :: c in t ==> c in pieces[0];
    }
  }

  /** What `Entries` yields: non-empty, trimmed entries free of the separator. */
  predicate Clean(entries: seq<string>, sep: char) {
    forall i :: 0 <= i < |entries| ==> entries[i] != [] && Trim(entries[i]) == entries[i] && sep !in entries[i]
  }

  /** Entries are what is left of the trimmed pieces after dropping the empty ones. */
  lemma {:induction false} EntriesUnfold(s: string, sep: char)
    ensures Entries(s, sep) == Filter(NonEmpty, TrimAll(Split(s, sep)))
  {
    TrimmedNonEmptyIsMapFilter(Split(s, sep));
  }

  /** Clean entries survive trimming and the blank filter unchanged. */
  lemma {:induction false} CleanKept(entries: seq<string>, sep: char)
    requires Clean(entries, sep)
    ensures Filter(NonEmpty, TrimAll(entries)) == entries
  {
    assert TrimAll(entries) == entries;
    FilterKeepsAll(NonEmpty, entries);
  }

  /** The tag field of the edit dialog (`tags.join(', ')`) gives the tags back. */
  lemma {:induction false} TagsRoundTrip(tags: seq<string>)
    requires Clean(tags, ',')
    ensures Entries(JoinWith(tags, ", "), ',') == tags
  {
    EntriesUnfold(JoinWith(tags, ", "), ',');
    if tags == [] {
      assert Split([], ',') == [[]];
      assert TrimAll([[]]) == [[]];
    } else {
      var spaced := [tags[0]] + Spaced(tags[1..]);
      JoinWithComma(tags);
      assert forall i :: 0 <= i < |spaced| ==> ',' !in spaced[i] by {
        forall i | 0 <= i < |spaced| ensures ',' !in spaced[i] {
          if i > 0 {
            assert spaced[i] == [' '] + tags[i];
          }
        }
      }
      SplitJoin(spaced, ',');
      TrimSpacedAll(tags);
      FilterKeepsAll(NonEmpty, tags);
    }
  }

  /** Trimming the pieces of `tags.join(', ')` gives the tags. */
  lemma {:induction false} TrimSpacedAll(tags: seq<string>)
    requires |tags| >= 1 && Clean(tags, ',')
    ensures TrimAll([tags[0]] + Spaced(tags[1..])) == tags
  {
    var spaced := [tags[0]] + Spaced(tags[1..]);
    forall i | 0 <= i < |tags| ensures Trim(spaced[i]) == tags[i] {
      if i > 0 {
        assert spaced[i] == [' '] + tags[i];
        TrimSpaced(tags[i]);
      }
    }
  }

  /** The titles of a task's subtasks, in order. */
  function Titles(subtasks: seq<Subtask>): (r: seq<string>)
    ensures |r| == |subtasks|
  {
    seq(|subtasks|, i requires 0 <= i < |subtasks| => subtasks[i].title)
  }

  /** The subtask field of the edit dialog (one title per line) gives the titles back. */
  lemma {:induction false} TitlesRoundTrip(titles: seq<string>)
    requires Clean(titles, '\n')
    ensures Entries(Join(titles, '\n'), '\n') == titles
  {
    EntriesUnfold(Join(titles, '\n'), '\n');
    if titles == [] {
      assert Split([], '\n') == [[]];
      assert TrimAll([[]]) == [[]];
    } else {
      SplitJoin(titles, '\n');
      CleanKept(titles, '\n');
    }
  }

  /** `taskDueInput.value || null`. */
  function DueValue(due: string): Option<string> {
    if due == "" then None else Some(due)
  }

  /** `taskPriorityInput.value || 'medium'`. */
  function PriorityValue(p: string): string {
    if p == "" then "medium" else p
  }

  /** `classIdValue ? Number(classIdValue) : null`. */
  function ClassValue(choice: Option<int>): ClassField {
    match choice
    case None => NoClass
    case Some(n) => Assigned(n)
  }

  /** The subtasks of a new task: numbered 1..n in order, none done. */
  function NumberedSubtasks(titles: seq<string>): (r: seq<Subtask>)
  {
    seq(|titles|, i requires 0 <= i < |titles| => Subtask(i + 1, titles[i], false))
  }

  /** The task `onSaveTask` creates from the dialog. */
  function NewTask(f: TaskForm, id: int, createdAt: string): Task {
    Task(id, Trim(f.title), Trim(f.description), DueValue(f.due), PriorityValue(f.priority),
         Entries(f.tags, ','), ClassValue(f.classChoice), NumberedSubtasks(Entries(f.subtasks, '\n')),
         false, createdAt)
  }

  /** The first old subtask carrying `title`. */
  function FindByTitle(prev: seq<Subtask>, title: string): int {
    FirstIndex((s: Subtask) => s.title == title, prev)
  }

  /** Rebuilds the subtasks from the edited title list. An entry whose title some old subtask has
      takes the first such subtask's id and done flag; any other entry is a fresh, undone subtask
      whose id is the clock reading `clock(i)` taken for it. Old subtasks whose titles are gone are
      dropped. */
  function Reconcile(prev: seq<Subtask>, titles: seq<string>, clock: nat -> int): (r: seq<Subtask>)
    ensures |r| == |titles|
    ensures forall i :: 0 <= i < |r| ==> r[i] == Carried(prev, titles[i], clock(i))
    ensures forall i :: 0 <= i < |r| ==> r[i].title == titles[i]
    ensures forall i, j :: 0 <= i < |r| && 0 <= j < |prev| && prev[j].title == titles[i]
                           && (forall k :: 0 <= k < j ==> prev[k].title != titles[i])
                           ==> r[i] == prev[j]
    ensures forall i :: 0 <= i < |r| && (forall j :: 0 <= j < |prev| ==> prev[j].title != titles[i])
                        ==> r[i] == Subtask(clock(i), titles[i], false)
  {
    seq(|titles|, i requires 0 <= i < |titles| => Carried(prev, titles[i], clock(i)))
  }

  /** The `map` callback: the first old subtask with the title lends its id and done flag,
      otherwise the subtask is new, stamped `stamp`, and not done. */
  function Carried(prev: seq<Subtask>, title: string, stamp: int): (r: Subtask)
    ensures r.title == title
    ensures forall j :: (0 <= j < |prev| && prev[j].title == title
                         && forall k :: 0 <= k < j ==> prev[k].title != title) ==> r == prev[j]
    ensures (forall j :: 0 <= j < |prev| ==> prev[j].title != title) ==> r == Subtask(stamp, title, false)
  {
    var k := FindByTitle(prev, title);
    if k >= 0 then Subtask(prev[k].id, title, prev[k].done)
    else Subtask(stamp, title, false)
  }

  /** Every old subtask whose title is not in the new list is gone. */
  lemma ReconcileDrops(prev: seq<Subtask>, titles: seq<string>, clock: nat -> int, s: Subtask)
    requires s.title !in titles
    ensures s !in Reconcile(prev, titles, clock)
  {
  }

  /** The task after the edit dialog is saved: every editable field from the form, subtasks
      reconciled; id, completion and creation time kept. */
  function EditedTask(t: Task, f: TaskForm, clock: nat -> int): (r: Task)
    ensures r.id == t.id && r.completed == t.completed && r.createdAt == t.createdAt
    ensures r.title == Trim(f.title) && r.description == Trim(f.description)
    ensures r.dueDate == DueValue(f.due) && r.priority == PriorityValue(f.priority)
    ensures r.tags == Entries(f.tags, ',') && r.classId == ClassValue(f.classChoice)
    ensures r.subtasks == Reconcile(t.subtasks, Entries(f.subtasks, '\n'), clock)
  {
    t.(title := Trim(f.title), description := Trim(f.description), dueDate := DueValue(f.due),
       priority := PriorityValue(f.priority), tags := Entries(f.tags, ','),
       classId := ClassValue(f.classChoice),
       subtasks := Reconcile(t.subtasks, Entries(f.subtasks, '\n'), clock))
  }

  /** `openModalForEdit`: the dialog filled in from a task. The class select shows the task's class
      when it offers an option for it (one per class), and "No class" otherwise. */
  function FormFor(t: Task, classes: seq<Class>): TaskForm {
    TaskForm(t.title, t.description, if t.dueDate.Some? then t.dueDate.value else "",
             PriorityValue(t.priority), JoinWith(t.tags, ", "), Join(Titles(t.subtasks), '\n'),
             if t.classId.Assigned? && HasClass(classes, t.classId.id) then Some(t.classId.id) else None)
  }

  predicate HasClass(classes: seq<Class>, id: int) {
    exists i :: 0 <= i < |classes| && classes[i].id == id
  }

  /** The options of the priority select. */
  const PriorityOptions: seq<string> := ["low", "medium", "high"]

  /** A task the edit dialog shows faithfully: every field is as the dialog would save it, the
      subtask titles are distinct and its class is one of `classes`. The date input holds only a
      real date key (year 1 on) and the priority select only one of its options, so a task whose
      due text or priority those inputs would blank is not one of these. */
  predicate Editable(t: Task, classes: seq<Class>) {
    Trim(t.title) == t.title && Trim(t.description) == t.description
    && (t.dueDate.None?
        || (Dates.ParseKey(t.dueDate.value).Some? && Dates.ParseKey(t.dueDate.value).value.year >= 1))
    && t.priority in PriorityOptions
    && Clean(t.tags, ',') && Clean(Titles(t.subtasks), '\n') && Distinct(Titles(t.subtasks))
    && (t.classId == NoClass || (t.classId.Assigned? && HasClass(classes, t.classId.id)))
  }

  /** Reconciling subtasks with their own, distinct titles gives them back. */
  lemma {:induction false} ReconcileSame(subtasks: seq<Subtask>, clock: nat -> int)
    requires Distinct(Titles(subtasks))
    ensures Reconcile(subtasks, Titles(subtasks), clock) == subtasks
  {
    var r := Reconcile(subtasks, Titles(subtasks), clock);
    forall i | 0 <= i < |r| ensures r[i] == subtasks[i] {
      assert forall k :: 0 <= k < i ==> subtasks[k].title == Titles(subtasks)[k] != Titles(subtasks)[i];
    }
  }

  /** Saving the edit dialog untouched reconciles the subtasks with their own titles. */
  lemma {:induction false} EditKeepsTitles(t: Task, classes: seq<Class>, clock: nat -> int)
    requires Clean(Titles(t.subtasks), '\n')
    ensures EditedTask(t, FormFor(t, classes), clock).subtasks == Reconcile(t.subtasks, Titles(t.subtasks), clock)
  {
    TitlesRoundTrip(Titles(t.subtasks));
  }

  /** Opening a task for editing and saving the dialog untouched leaves the task as it was. */
  lemma {:induction false} EditUnchanged(t: Task, classes: seq<Class>, clock: nat -> int)
    requires Editable(t, classes)
    ensures EditedTask(t, FormFor(t, classes), clock) == t
  {
    var f := FormFor(t, classes);
    TagsRoundTrip(t.tags);
    EditKeepsTitles(t, classes, clock);
    ReconcileSame(t.subtasks, clock);
    var r := EditedTask(t, f, clock);
    assert r.tags == t.tags && r.subtasks == t.subtasks;
    assert r.dueDate == t.dueDate && r.priority == t.priority && r.classId == t.classId;
  }

  /** Distinct titles are needed: with two subtasks titled alike, reconciling them with their own
      titles (what saving the dialog untouched does) gives the second one the first one's id and
      done flag. */
  lemma DuplicateTitlesMerge(clock: nat -> int)
    ensures var subs := [Subtask(1, "x", true), Subtask(2, "x", false)];
            Titles(subs) == ["x", "x"]
            && Reconcile(subs, Titles(subs), clock) == [Subtask(1, "x", true), Subtask(1, "x", true)]
  {
    var subs := [Subtask(1, "x", true), Subtask(2, "x", false)];
    assert Titles(subs) == ["x", "x"];
    var r := Reconcile(subs, ["x", "x"], clock);
    assert r[1] == subs[0];
  }
}
