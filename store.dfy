/**
  The task store (`state` in app.js): the task list with its id counter and the class list with its
  own counter. Each operation is a function on `State` values, with the invariants it keeps and
  the laws relating operations; the class `TaskStore` performs the same operations in place and is
  proved to agree with those functions.
 */
module Store {
  import opened Options
  import opened Text
  import opened Seqs
  import opened Tasks
  import opened Persist
  import opened Reorder

  datatype State = State(tasks: seq<Task>, nextId: int, classes: seq<Class>, nextClassId: int)

  /** The store made from a document that `ensureStateShape` has shaped. */
  function FromDoc(d: StateDoc): (r: State)
    requires StateShaped(d)
    ensures r.tasks == d.tasks && r.nextId == d.nextId
    ensures Some(r.classes) == d.classes && Some(r.nextClassId) == d.nextClassId
  {
    State(d.tasks, d.nextId, d.classes.value, d.nextClassId.value)
  }

  /** Every task id lies below the counter, and no two tasks share an id. */
  predicate IdsFresh(s: State) {
    (forall i :: 0 <= i < |s.tasks| ==> s.tasks[i].id < s.nextId)
    && (forall i, j :: 0 <= i < j < |s.tasks| ==> s.tasks[i].id != s.tasks[j].id)
  }

  /** Every class id lies below its counter, class names are trimmed and non-empty, and no two
      classes share an id or a name ignoring case. */
  predicate ClassesFresh(s: State) {
    (forall i :: 0 <= i < |s.classes| ==>
       s.classes[i].id < s.nextClassId && s.classes[i].name != [] && Trim(s.classes[i].name) == s.classes[i].name)
    && (forall i, j :: 0 <= i < j < |s.classes| ==>
          s.classes[i].id != s.classes[j].id && Lower(s.classes[i].name) != Lower(s.classes[j].name))
  }

  predicate Valid(s: State) {
    IdsFresh(s) && ClassesFresh(s)
  }

  /** The store app.js starts from when nothing is stored satisfies the invariants. */
  lemma DefaultValid()
    ensures Valid(FromDoc(ShapeState(DefaultState())))
    ensures FromDoc(ShapeState(DefaultState())) == State([], 1, [], 1)
  {
    assert ShapeState(DefaultState()).tasks == [];
  }

  /** Positions of tasks are found by id alone: two lists with the same ids give the same answer. */
  lemma SameIdsSameIndex(a: seq<Task>, b: seq<Task>, id: int)
    requires |a| == |b| && forall i :: 0 <= i < |a| ==> a[i].id == b[i].id
    ensures IndexOfId(a, id) == IndexOfId(b, id)
  {
  }

  // ---------------------------------------------------------------------------------------------
  // Saving the task dialog

  /** `onSaveTask` for a new task: a blank title changes nothing; otherwise the new task goes in
      front and the id counter moves on by one. */
  function Create(s: State, f: TaskForm, createdAt: string): (r: State)
    ensures AllSpace(f.title) ==> r == s
    ensures !AllSpace(f.title) ==>
              r.tasks == [NewTask(f, s.nextId, createdAt)] + s.tasks && r.nextId == s.nextId + 1
              && r.classes == s.classes && r.nextClassId == s.nextClassId
  {
    TrimBlank(f.title);
    if Trim(f.title) == [] then s
    else s.(tasks := [NewTask(f, s.nextId, createdAt)] + s.tasks, nextId := s.nextId + 1)
  }

  /** The task a non-blank save creates: id from the counter, at index 0, not completed, trimmed
      non-blank title, subtasks numbered 1..n and not done; the old tasks follow in their order. */
  lemma CreateNewTask(s: State, f: TaskForm, createdAt: string)
    requires !AllSpace(f.title)
    ensures var r := Create(s, f, createdAt);
            var t := r.tasks[0];
            |r.tasks| == |s.tasks| + 1 && r.tasks[1..] == s.tasks
            && t.id == s.nextId && !t.completed && t.title == Trim(f.title) && t.title != []
            && (forall i :: 0 <= i < |t.subtasks| ==> t.subtasks[i].id == i + 1 && !t.subtasks[i].done)
            && |t.subtasks| == |Entries(f.subtasks, '\n')|
  {
    TrimBlank(f.title);
  }

  lemma CreateValid(s: State, f: TaskForm, createdAt: string)
    requires Valid(s)
    ensures Valid(Create(s, f, createdAt))
  {
    var r := Create(s, f, createdAt);
    if !AllSpace(f.title) {
      var t := NewTask(f, s.nextId, createdAt);
      assert r.tasks == [t] + s.tasks && t.id == s.nextId;
      assert r.classes == s.classes && r.nextClassId == s.nextClassId;
      forall i | 0 <= i < |r.tasks| ensures r.tasks[i].id < r.nextId {
        if i > 0 {
          assert r.tasks[i] == s.tasks[i - 1];
        }
      }
      forall i, j | 0 <= i < j < |r.tasks| ensures r.tasks[i].id != r.tasks[j].id {
        assert r.tasks[j] == s.tasks[j - 1];
        if i > 0 {
          assert r.tasks[i] == s.tasks[i - 1];
        }
      }
      assert IdsFresh(r);
    }
  }

  /** `onSaveTask` while editing task `id`: a blank title or an id no task has changes nothing;
      otherwise the first task with that id takes the dialog's fields. */
  function Edit(s: State, id: int, f: TaskForm, clock: nat -> int): (r: State)
    ensures r.nextId == s.nextId && r.classes == s.classes && r.nextClassId == s.nextClassId
    ensures |r.tasks| == |s.tasks| && forall i :: 0 <= i < |r.tasks| ==> r.tasks[i].id == s.tasks[i].id
    ensures AllSpace(f.title) || IndexOfId(s.tasks, id) < 0 ==> r == s
    ensures !AllSpace(f.title) && IndexOfId(s.tasks, id) >= 0 ==>
              var k := IndexOfId(s.tasks, id);
              r.tasks == s.tasks[k := EditedTask(s.tasks[k], f, clock)]
  {
    TrimBlank(f.title);
    var k := IndexOfId(s.tasks, id);
    if Trim(f.title) == [] || k < 0 then s
    else s.(tasks := s.tasks[k := EditedTask(s.tasks[k], f, clock)])
  }

  lemma EditValid(s: State, id: int, f: TaskForm, clock: nat -> int)
    requires Valid(s)
    ensures Valid(Edit(s, id, f, clock))
  {
  }

  /** Opening a task for editing and saving the dialog untouched leaves the store as it was. */
  lemma EditUntouched(s: State, k: nat, clock: nat -> int)
    requires IdsFresh(s) && k < |s.tasks| && Editable(s.tasks[k], s.classes) && s.tasks[k].title != []
    ensures Edit(s, s.tasks[k].id, FormFor(s.tasks[k], s.classes), clock) == s
  {
    var t := s.tasks[k];
    var f := FormFor(t, s.classes);
    TrimBlank(t.title);
    assert !AllSpace(f.title);
    OwnIdIndex(s, k);
    EditUnchanged(t, s.classes, clock);
    assert s.tasks[k := t] == s.tasks;
  }

  /** With distinct ids, looking up a task's own id finds that task. */
  lemma OwnIdIndex(s: State, k: nat)
    requires IdsFresh(s) && k < |s.tasks|
    ensures IndexOfId(s.tasks, s.tasks[k].id) == k
  {
  }

  // ---------------------------------------------------------------------------------------------
  // Deleting, completing, clearing

  /** `state.tasks.filter(t => t.id !== id)`. */
  function Delete(s: State, id: int): (r: State)
    ensures forall i :: 0 <= i < |r.tasks| ==> r.tasks[i].id != id
    ensures forall i :: 0 <= i < |s.tasks| && s.tasks[i].id != id ==> s.tasks[i] in r.tasks
    ensures Subsequence(r.tasks, s.tasks)
    ensures forall t :: multiset(r.tasks)[t] == if t.id != id then multiset(s.tasks)[t] else 0
    ensures r.nextId == s.nextId && r.classes == s.classes && r.nextClassId == s.nextClassId
  {
    FilterMultiset((t: Task) => t.id != id, s.tasks);
    s.(tasks := Filter((t: Task) => t.id != id, s.tasks))
  }

  /** Deleting an id no task has changes nothing. */
  lemma DeleteAbsent(s: State, id: int)
    requires forall i :: 0 <= i < |s.tasks| ==> s.tasks[i].id != id
    ensures Delete(s, id) == s
  {
    FilterKeepsAll((t: Task) => t.id != id, s.tasks);
  }

  /** Deleting a task just created takes the list back to what it was; only the counter has moved. */
  lemma CreateThenDelete(s: State, f: TaskForm, createdAt: string)
    requires IdsFresh(s) && !AllSpace(f.title)
    ensures Delete(Create(s, f, createdAt), s.nextId) == s.(nextId := s.nextId + 1)
  {
    var p := (t: Task) => t.id != s.nextId;
    var c := Create(s, f, createdAt);
    assert c.tasks == [c.tasks[0]] + s.tasks;
    assert !p(c.tasks[0]);
    assert Filter(p, c.tasks) == Filter(p, s.tasks);
    FilterKeepsAll(p, s.tasks);
  }

  lemma {:induction false} SubsequenceIds(a: seq<Task>, b: seq<Task>, bound: int)
    requires Subsequence(a, b)
    requires forall i :: 0 <= i < |b| ==> b[i].id < bound
    requires forall i, j :: 0 <= i < j < |b| ==> b[i].id != b[j].id
    ensures forall i :: 0 <= i < |a| ==> a[i].id < bound
    ensures forall i, j :: 0 <= i < j < |a| ==> a[i].id != a[j].id
    decreases |a| + |b|
  {
    if a != [] {
      if a[0] == b[0] && Subsequence(a[1..], b[1..]) {
        SubsequenceIds(a[1..], b[1..], bound);
        SubsequenceMembers(a[1..], b[1..]);
        forall j | 0 < j < |a| ensures a[0].id != a[j].id {
          var m :| 0 <= m < |b[1..]| && b[1..][m] == a[j];
          assert b[m + 1] == a[j];
        }
      } else {
        SubsequenceIds(a, b[1..], bound);
      }
    }
  }

  lemma {:induction false} SubsequenceMembers<T>(a: seq<T>, b: seq<T>)
    requires Subsequence(a, b)
    ensures forall i :: 0 <= i < |a| ==> exists m :: 0 <= m < |b| && b[m] == a[i]
    decreases |a| + |b|
  {
    if a != [] {
      if a[0] == b[0] && Subsequence(a[1..], b[1..]) {
        SubsequenceMembers(a[1..], b[1..]);
        forall i | 1 <= i < |a| ensures exists m :: 0 <= m < |b| && b[m] == a[i] {
          var m :| 0 <= m < |b[1..]| && b[1..][m] == a[1..][i - 1];
          assert b[m + 1] == a[i];
        }
      } else {
        SubsequenceMembers(a, b[1..]);
        forall i | 0 <= i < |a| ensures exists m :: 0 <= m < |b| && b[m] == a[i] {
          var m :| 0 <= m < |b[1..]| && b[1..][m] == a[i];
          assert b[m + 1] == a[i];
        }
      }
    }
  }

  lemma DeleteValid(s: State, id: int)
    requires Valid(s)
    ensures Valid(Delete(s, id))
  {
    SubsequenceIds(Delete(s, id).tasks, s.tasks, s.nextId);
  }

  /** `toggleComplete`: the first task with the id flips its completion; no such task, no change. */
  function Toggle(s: State, id: int): (r: State)
    ensures r.nextId == s.nextId && r.classes == s.classes && r.nextClassId == s.nextClassId
    ensures |r.tasks| == |s.tasks|
    ensures forall i :: 0 <= i < |s.tasks| ==>
              r.tasks[i] == s.tasks[i].(completed := r.tasks[i].completed)
              && (r.tasks[i].completed != s.tasks[i].completed <==> i == IndexOfId(s.tasks, id))
  {
    var k := IndexOfId(s.tasks, id);
    if k < 0 then s
    else s.(tasks := s.tasks[k := s.tasks[k].(completed := !s.tasks[k].completed)])
  }

  /** Toggling twice is no change at all. */
  lemma ToggleTwice(s: State, id: int)
    ensures Toggle(Toggle(s, id), id) == s
  {
    var r := Toggle(s, id);
    SameIdsSameIndex(r.tasks, s.tasks, id);
    var k := IndexOfId(s.tasks, id);
    if k >= 0 {
      assert Toggle(r, id).tasks == s.tasks;
    }
  }

  lemma ToggleValid(s: State, id: int)
    requires Valid(s)
    ensures Valid(Toggle(s, id))
  {
  }

  /** The subtask checkbox: subtask `si` of the task at position `ti` takes the box's state. A card
      left over from an earlier render no longer stands for a task of the list; a position outside
      the list stands for that and changes nothing. */
  function SetSubtaskDone(s: State, ti: int, si: int, done: bool): (r: State)
    ensures r.nextId == s.nextId && r.classes == s.classes && r.nextClassId == s.nextClassId
    ensures |r.tasks| == |s.tasks|
    ensures forall i :: 0 <= i < |s.tasks| && i != ti ==> r.tasks[i] == s.tasks[i]
    ensures 0 <= ti < |s.tasks| ==>
              var t := s.tasks[ti];
              r.tasks[ti] == t.(subtasks := r.tasks[ti].subtasks) && |r.tasks[ti].subtasks| == |t.subtasks|
              && forall j :: 0 <= j < |t.subtasks| ==>
                   r.tasks[ti].subtasks[j] == (if j == si then t.subtasks[j].(done := done) else t.subtasks[j])
  {
    if 0 <= ti < |s.tasks| && 0 <= si < |s.tasks[ti].subtasks| then
      var t := s.tasks[ti];
      s.(tasks := s.tasks[ti := t.(subtasks := t.subtasks[si := t.subtasks[si].(done := done)])])
    else s
  }

  /** Ticking a box and then putting it back as it was restores the store. */
  lemma SubtaskUndo(s: State, ti: int, si: int, done: bool)
    requires 0 <= ti < |s.tasks| && 0 <= si < |s.tasks[ti].subtasks|
    ensures SetSubtaskDone(SetSubtaskDone(s, ti, si, done), ti, si, s.tasks[ti].subtasks[si].done) == s
  {
    var r := SetSubtaskDone(SetSubtaskDone(s, ti, si, done), ti, si, s.tasks[ti].subtasks[si].done);
    assert r.tasks[ti].subtasks == s.tasks[ti].subtasks;
    assert r.tasks == s.tasks;
  }

  lemma SubtaskValid(s: State, ti: int, si: int, done: bool)
    requires Valid(s)
    ensures Valid(SetSubtaskDone(s, ti, si, done))
  {
  }

  /** The "complete all" button: every task completed, nothing else touched. */
  function CompleteAll(s: State): (r: State)
    ensures r.nextId == s.nextId && r.classes == s.classes && r.nextClassId == s.nextClassId
    ensures |r.tasks| == |s.tasks|
    ensures forall i :: 0 <= i < |s.tasks| ==> r.tasks[i] == s.tasks[i].(completed := true)
  {
    s.(tasks := seq(|s.tasks|, i requires 0 <= i < |s.tasks| => s.tasks[i].(completed := true)))
  }

  /** The "clear done" button: the completed tasks go, the others stay in order. */
  function ClearCompleted(s: State): (r: State)
    ensures forall i :: 0 <= i < |r.tasks| ==> !r.tasks[i].completed
    ensures forall i :: 0 <= i < |s.tasks| && !s.tasks[i].completed ==> s.tasks[i] in r.tasks
    ensures Subsequence(r.tasks, s.tasks)
    ensures forall t :: multiset(r.tasks)[t] == if !t.completed then multiset(s.tasks)[t] else 0
    ensures r.nextId == s.nextId && r.classes == s.classes && r.nextClassId == s.nextClassId
  {
    FilterMultiset((t: Task) => !t.completed, s.tasks);
    s.(tasks := Filter((t: Task) => !t.completed, s.tasks))
  }

  /** Completing all and then clearing the completed ones empties the list; both are idempotent. */
  lemma CompleteThenClear(s: State)
    ensures ClearCompleted(CompleteAll(s)).tasks == []
    ensures CompleteAll(CompleteAll(s)) == CompleteAll(s)
    ensures ClearCompleted(ClearCompleted(s)) == ClearCompleted(s)
  {
    NothingLeftUndone(s);
    ClearTwice(s);
  }

  lemma ClearTwice(s: State)
    ensures ClearCompleted(ClearCompleted(s)) == ClearCompleted(s)
  {
    var d := ClearCompleted(s);
    FilterKeepsAll((t: Task) => !t.completed, d.tasks);
  }

  lemma NothingLeftUndone(s: State)
    ensures ClearCompleted(CompleteAll(s)).tasks == []
  {
    var c := ClearCompleted(CompleteAll(s)).tasks;
    assert c == [];
  }

  lemma CompleteAllValid(s: State)
    requires Valid(s)
    ensures Valid(CompleteAll(s))
  {
  }

  lemma ClearCompletedValid(s: State)
    requires Valid(s)
    ensures Valid(ClearCompleted(s))
  {
    SubsequenceIds(ClearCompleted(s).tasks, s.tasks, s.nextId);
  }

  // ---------------------------------------------------------------------------------------------
  // Reordering

  /** `reorderFromDom` with the card ids in their new order. */
  function ReorderTasks(s: State, ids: seq<int>): (r: State)
    ensures r.nextId == s.nextId && r.classes == s.classes && r.nextClassId == s.nextClassId
    ensures Distinct(ids) ==> |r.tasks| == |s.tasks|
  {
    if Distinct(ids) then ReorderIsPermutationLength(s.tasks, ids); s.(tasks := Reordered(s.tasks, ids))
    else s.(tasks := Reordered(s.tasks, ids))
  }

  lemma ReorderIsPermutationLength(tasks: seq<Task>, ids: seq<int>)
    requires Distinct(ids)
    ensures |Reordered(tasks, ids)| == |tasks|
  {
    ReorderIsPermutation(tasks, ids);
  }

  /** With distinct card ids, the reordered store still has fresh, distinct ids. */
  lemma ReorderValid(s: State, ids: seq<int>)
    requires Valid(s) && Distinct(ids)
    ensures Valid(ReorderTasks(s, ids))
  {
    var o := Order(s.tasks, ids);
    ReorderIsPermutation(s.tasks, ids);
    var r := ReorderTasks(s, ids).tasks;
    assert r == At(s.tasks, o);
    forall i, j | 0 <= i < j < |r| ensures r[i].id != r[j].id {
      assert r[i] == s.tasks[o[i]] && r[j] == s.tasks[o[j]] && o[i] != o[j];
    }
  }

  // ---------------------------------------------------------------------------------------------
  // Classes

  /** Some class is named `name` ignoring case. */
  predicate NameTaken(classes: seq<Class>, name: string) {
    exists i :: 0 <= i < |classes| && Lower(classes[i].name) == Lower(name)
  }

  /** `onAddClass`: a blank name or one already taken ignoring case changes nothing; otherwise the
      trimmed name is appended with the next class id. */
  function AddClass(s: State, input: string): (r: State)
    ensures AllSpace(input) || NameTaken(s.classes, Trim(input)) ==> r == s
    ensures !AllSpace(input) && !NameTaken(s.classes, Trim(input)) ==>
              r.classes == s.classes + [Class(s.nextClassId, Trim(input))] && r.nextClassId == s.nextClassId + 1
              && r.tasks == s.tasks && r.nextId == s.nextId
  {
    TrimBlank(input);
    var name := Trim(input);
    if name == [] || NameTaken(s.classes, name) then s
    else s.(classes := s.classes + [Class(s.nextClassId, name)], nextClassId := s.nextClassId + 1)
  }

  /** Adding the same name twice adds it once. */
  lemma AddClassTwice(s: State, input: string)
    ensures AddClass(AddClass(s, input), input) == AddClass(s, input)
  {
    var r := AddClass(s, input);
    if !AllSpace(input) && !NameTaken(s.classes, Trim(input)) {
      assert r.classes[|s.classes|].name == Trim(input);
    }
  }

  lemma AddClassValid(s: State, input: string)
    requires Valid(s)
    ensures Valid(AddClass(s, input))
  {
    var r := AddClass(s, input);
    if !AllSpace(input) && !NameTaken(s.classes, Trim(input)) {
      var c := Class(s.nextClassId, Trim(input));
      assert r.classes == s.classes + [c] && r.nextClassId == s.nextClassId + 1;
      assert r.tasks == s.tasks && r.nextId == s.nextId;
      TrimBlank(input);
      TrimIdempotent(input);
      forall i | 0 <= i < |r.classes|
        ensures r.classes[i].id < r.nextClassId && r.classes[i].name != []
        ensures Trim(r.classes[i].name) == r.classes[i].name
      {
        if i < |s.classes| {
          assert r.classes[i] == s.classes[i];
        }
      }
      forall i, j | 0 <= i < j < |r.classes|
        ensures r.classes[i].id != r.classes[j].id && Lower(r.classes[i].name) != Lower(r.classes[j].name)
      {
        assert r.classes[i] == s.classes[i];
        if j < |s.classes| {
          assert r.classes[j] == s.classes[j];
        } else {
          assert r.classes[j] == c;
        }
      }
      assert ClassesFresh(r);
    }
  }

  /** After "Math" is added, "  math " is refused. */
  lemma AddClassCaseInsensitive()
    ensures var s := AddClass(State([], 1, [], 1), "Math");
            s.classes == [Class(1, "Math")] && AddClass(s, "  math ") == s
  {
    var s0 := State([], 1, [], 1);
    NameSamples();
    var s := AddClass(s0, "Math");
    assert s.classes == [Class(1, "Math")];
    assert Lower(s.classes[0].name) == Lower("math");
    assert NameTaken(s.classes, Trim("  math "));
  }

  lemma NameSamples()
    ensures !AllSpace("Math") && Trim("Math") == "Math" && Trim("  math ") == "math"
  {
    assert !IsSpace("Math"[0]);
    assert TrimStart("  math ") == TrimStart(" math ") == TrimStart("math ") == "math ";
    assert "math "[..4] == "math" && !IsSpace("math"[3]);
    assert TrimEnd("math ") == TrimEnd("math") == "math";
  }

  // ---------------------------------------------------------------------------------------------
  // Import

  /** The part of an imported file that `onImportFile` reads: `parsed.state.tasks`. `None` stands
      for a file with no `state` object, a `state` without a `tasks` array, or nothing parsed. */
  /** An element of the file's `state.tasks` array is a task object, or `None` for a JSON value that
      is not an object (`null`, a number, a string, a boolean). */
  datatype ImportState = ImportState(tasks: Option<seq<Option<Task>>>)
  datatype ImportDoc = ImportDoc(state: Option<ImportState>)

  /** The incoming array, when the file has one. */
  function Incoming(parsed: Option<ImportDoc>): (r: Option<seq<Option<Task>>>)
    ensures r.Some? <==> parsed.Some? && parsed.value.state.Some? && parsed.value.state.value.tasks.Some?
  {
    if parsed.Some? && parsed.value.state.Some? then parsed.value.state.value.tasks else None
  }

  /** The tasks of an array whose elements are all objects. */
  function Objects(items: seq<Option<Task>>): (r: seq<Task>)
    requires forall j :: 0 <= j < |items| ==> items[j].Some?
    ensures |r| == |items| && forall k :: 0 <= k < |items| ==> items[k] == Some(r[k])
  {
    seq(|items|, k requires 0 <= k < |items| => items[k].value)
  }

  /** The array `JSON.stringify` writes for a task list: every element an object. */
  function AsObjects(ts: seq<Task>): (r: seq<Option<Task>>)
    ensures |r| == |ts| && forall k :: 0 <= k < |ts| ==> r[k] == Some(ts[k])
  {
    seq(|ts|, k requires 0 <= k < |ts| => Some(ts[k]))
  }

  /** The incoming tasks with ids `start`, `start + 1`, ... in file order. */
  function Renumber(ts: seq<Task>, start: int): (r: seq<Task>)
    ensures |r| == |ts| && forall k :: 0 <= k < |ts| ==> r[k] == ts[k].(id := start + k)
  {
    seq(|ts|, k requires 0 <= k < |ts| => ts[k].(id := start + k))
  }

  /** `onImportFile`: a file without a task list changes nothing; otherwise its tasks, renumbered
      from the id counter, go before the existing ones. Classes are not imported. Each element
      first takes `state.nextId++`; at an element that is not an object the assignment of `.id`
      throws (strict mode), so the import stops with the tasks unchanged but the counter already
      moved past that element. */
  function Import(s: State, parsed: Option<ImportDoc>): (r: State)
    ensures Incoming(parsed).None? ==> r == s
    ensures Incoming(parsed).Some? && (forall j :: 0 <= j < |Incoming(parsed).value| ==> Incoming(parsed).value[j].Some?) ==>
              var items := Incoming(parsed).value;
              |r.tasks| == |items| + |s.tasks| && r.tasks[|items|..] == s.tasks
              && (forall k :: 0 <= k < |items| ==> Some(r.tasks[k]) == Some(items[k].value.(id := s.nextId + k)))
              && r.nextId == s.nextId + |items|
    ensures Incoming(parsed).Some? ==>
              var items := Incoming(parsed).value;
              forall k :: 0 <= k < |items| && items[k].None? && (forall j :: 0 <= j < k ==> items[j].Some?) ==>
                r == s.(nextId := s.nextId + k + 1)
    ensures r.classes == s.classes && r.nextClassId == s.nextClassId
  {
    match Incoming(parsed)
    case None => s
    case Some(items) =>
      var bad := FirstIndex((x: Option<Task>) => x.None?, items);
      if bad >= 0 then s.(nextId := s.nextId + bad + 1)
      else
        var ts := Objects(items);
        var r := s.(tasks := Renumber(ts, s.nextId) + s.tasks, nextId := s.nextId + |ts|);
        assert r.tasks[|ts|..] == s.tasks;
        r
  }

  /** Imported tasks get fresh ids, so the store keeps its invariants whatever the file holds. */
  lemma ImportValid(s: State, parsed: Option<ImportDoc>)
    requires Valid(s)
    ensures Valid(Import(s, parsed))
  {
    var r := Import(s, parsed);
    if Incoming(parsed).Some? && r.tasks != s.tasks {
      var items := Incoming(parsed).value;
      PrependFresh(s, Renumber(Objects(items), s.nextId));
    }
  }

  /** Tasks numbered upwards from the counter can go in front of the list. */
  lemma PrependFresh(s: State, front: seq<Task>)
    requires IdsFresh(s)
    requires forall k :: 0 <= k < |front| ==> front[k].id == s.nextId + k
    ensures IdsFresh(s.(tasks := front + s.tasks, nextId := s.nextId + |front|))
  {
    var r := s.(tasks := front + s.tasks, nextId := s.nextId + |front|);
    var n := |front|;
    forall i, j | 0 <= i < j < |r.tasks| ensures r.tasks[i].id != r.tasks[j].id {
      if i >= n {
        assert r.tasks[i] == s.tasks[i - n] && r.tasks[j] == s.tasks[j - n];
      } else if j >= n {
        assert r.tasks[j] == s.tasks[j - n];
      }
    }
    forall i | n <= i < |r.tasks| ensures r.tasks[i].id < r.nextId {
      assert r.tasks[i] == s.tasks[i - n];
    }
  }

  /** A file whose second element is `null`: nothing is imported, but the counter has moved twice. */
  lemma ImportStopsAtNonObject(s: State, t: Task)
    ensures Import(s, Some(ImportDoc(Some(ImportState(Some([Some(t), None])))))) == s.(nextId := s.nextId + 2)
  {
    var items: seq<Option<Task>> := [Some(t), None];
    assert items[0].Some? && items[1].None?;
  }

  /** The export payload (`exportJSON`): metadata, the UI preferences and the store. */
  datatype Export = Export(exportedAt: string, version: int, ui: UiDoc, state: State)

  function ExportOf(s: State, ui: UiDoc, exportedAt: string): (r: Export)
    ensures r.state == s && r.version == 1
  {
    Export(exportedAt, 1, ui, s)
  }

  /** What `JSON.parse` of an exported file yields for `onImportFile`. */
  function ReadExport(e: Export): (r: ImportDoc)
    ensures r.state == Some(ImportState(Some(AsObjects(e.state.tasks))))
  {
    ImportDoc(Some(ImportState(Some(AsObjects(e.state.tasks)))))
  }

  /** Importing an export into a fresh store gives back the exported tasks in their order, every
      field kept except the ids, which become 1..n. */
  lemma ExportImportRoundTrip(s: State, ui: UiDoc, exportedAt: string)
    ensures var r := Import(State([], 1, [], 1), Some(ReadExport(ExportOf(s, ui, exportedAt))));
            |r.tasks| == |s.tasks| && r.nextId == |s.tasks| + 1 && r.classes == []
            && forall k :: 0 <= k < |s.tasks| ==> r.tasks[k] == s.tasks[k].(id := k + 1)
  {
  }

  // ---------------------------------------------------------------------------------------------
  // The store as app.js holds it

  class TaskStore {
    var tasks: seq<Task>
    var nextId: int
    var classes: seq<Class>
    var nextClassId: int

    function Value(): State
      reads this
    {
      State(tasks, nextId, classes, nextClassId)
    }

    /** `let state = loadState(); ensureStateShape();` */
    constructor Load(stored: Option<StateDoc>)
      ensures Value() == FromDoc(ShapeState(LoadState(stored)))
    {
      var d := EnsureStateShape(LoadState(stored));
      tasks := d.tasks;
      nextId := d.nextId;
      classes := d.classes.value;
      nextClassId := d.nextClassId.value;
    }

    /** `onSaveTask`; `editing` is `editingTaskId`. */
    method SaveTask(f: TaskForm, editing: Option<int>, createdAt: string, clock: nat -> int)
      modifies this
      ensures editing.None? ==> Value() == Create(old(Value()), f, createdAt)
      ensures editing.Some? ==> Value() == Edit(old(Value()), editing.value, f, clock)
    {
      var title := Trim(f.title);
      if title == [] {
        return;
      }
      if editing.None? {
        tasks := [NewTask(f, nextId, createdAt)] + tasks;
        nextId := nextId + 1;
      } else {
        var k := IndexOfId(tasks, editing.value);
        if k < 0 {
          return;
        }
        tasks := tasks[k := EditedTask(tasks[k], f, clock)];
      }
    }

    /** `onDeleteTask` and the context-menu delete, once confirmed. */
    method DeleteTask(id: int)
      modifies this
      ensures Value() == Delete(old(Value()), id)
    {
      tasks := Filter((t: Task) => t.id != id, tasks);
    }

    method ToggleComplete(id: int)
      modifies this
      ensures Value() == Toggle(old(Value()), id)
    {
      var k := IndexOfId(tasks, id);
      if k < 0 {
        return;
      }
      tasks := tasks[k := tasks[k].(completed := !tasks[k].completed)];
    }

    method SetSubtask(ti: int, si: int, done: bool)
      modifies this
      ensures Value() == SetSubtaskDone(old(Value()), ti, si, done)
    {
      if 0 <= ti < |tasks| && 0 <= si < |tasks[ti].subtasks| {
        var t := tasks[ti];
        tasks := tasks[ti := t.(subtasks := t.subtasks[si := t.subtasks[si].(done := done)])];
      }
    }

    /** `state.tasks.forEach(t => t.completed = true)`. */
    method CompleteAllTasks()
      modifies this
      ensures Value() == CompleteAll(old(Value()))
    {
      var i := 0;
      while i < |tasks|
        invariant 0 <= i <= |tasks| == |old(tasks)|
        invariant forall k :: 0 <= k < i ==> tasks[k] == old(tasks)[k].(completed := true)
        invariant forall k :: i <= k < |tasks| ==> tasks[k] == old(tasks)[k]
        invariant nextId == old(nextId) && classes == old(classes) && nextClassId == old(nextClassId)
      {
        tasks := tasks[i := tasks[i].(completed := true)];
        i := i + 1;
      }
    }

    method ClearCompletedTasks()
      modifies this
      ensures Value() == ClearCompleted(old(Value()))
    {
      tasks := Filter((t: Task) => !t.completed, tasks);
    }

    /** `reorderFromDom`. */
    method Reorder(ids: seq<int>)
      modifies this
      ensures Value() == ReorderTasks(old(Value()), ids)
    {
      var ts := tasks;
      var newOrder, taken := TakeListed(ts, ids);
      newOrder := AppendRest(ts, newOrder, taken);
      tasks := newOrder;
    }

    method AddClassNamed(input: string)
      modifies this
      ensures Value() == AddClass(old(Value()), input)
    {
      var name := Trim(input);
      if name == [] {
        return;
      }
      var i := 0;
      while i < |classes|
        invariant 0 <= i <= |classes|
        invariant forall k :: 0 <= k < i ==> Lower(classes[k].name) != Lower(name)
      {
        if Lower(classes[i].name) == Lower(name) {
          return;
        }
        i := i + 1;
      }
      classes := classes + [Class(nextClassId, name)];
      nextClassId := nextClassId + 1;
    }

    /** The merge in `onImportFile`: each incoming task takes `state.nextId++`, then the incoming
        list is put in front. */
    method ImportTasks(parsed: Option<ImportDoc>)
      modifies this
      ensures Value() == Import(old(Value()), parsed)
    {
      var incoming := Incoming(parsed);
      if incoming.None? {
        return;
      }
      var items := incoming.value;
      var ts := items;
      var i := 0;
      while i < |ts|
        invariant 0 <= i <= |ts| == |items|
        invariant nextId == old(nextId) + i
        invariant forall k :: 0 <= k < i ==> items[k].Some? && ts[k] == Some(items[k].value.(id := old(nextId) + k))
        invariant forall k :: i <= k < |ts| ==> ts[k] == items[k]
        invariant tasks == old(tasks) && classes == old(classes) && nextClassId == old(nextClassId)
      {
        var id := nextId;
        nextId := nextId + 1;
        if ts[i].None? {
          // `task.id = ...` on a value that is not an object throws; the counter has moved
          return;
        }
        ts := ts[i := Some(ts[i].value.(id := id))];
        i := i + 1;
      }
      tasks := Objects(ts) + tasks;
      assert Objects(ts) == Renumber(Objects(items), old(nextId));
    }
  }

  /** The positions the first loop has taken after the listed ids `ids`, one id at a time. */
  function Taken(ts: seq<Task>, ids: seq<int>): (r: seq<nat>)
    ensures forall j :: 0 <= j < |r| ==> r[j] < |ts|
  {
    if ids == [] then []
    else
      var k := IndexOfId(ts, ids[|ids| - 1]);
      Taken(ts, ids[..|ids| - 1]) + (if k >= 0 then [k] else [])
  }

  /** Taking the ids one at a time takes the positions `Picked` names. */
  lemma {:induction false} TakenIsPicked(ts: seq<Task>, ids: seq<int>)
    ensures Taken(ts, ids) == Picked(ts, ids)
  {
    if ids != [] {
      var i := |ids| - 1;
      TakenIsPicked(ts, ids[..i]);
      PickedStep(ts, ids, i);
      assert ids[..i + 1] == ids;
    }
  }

  /** The first loop of `reorderFromDom`: for each listed id, the first task with that id. `taken`
      holds the positions taken, standing for the object identity `newOrder.includes(t)` tests. */
  method TakeListed(ts: seq<Task>, ids: seq<int>) returns (newOrder: seq<Task>, taken: seq<nat>)
    ensures taken == Picked(ts, ids) && newOrder == At(ts, taken)
  {
    newOrder := [];
    taken := [];
    var i := 0;
    while i < |ids|
      invariant 0 <= i <= |ids|
      invariant taken == Taken(ts, ids[..i])
      invariant newOrder == At(ts, taken)
    {
      var k := IndexOfId(ts, ids[i]);
      assert ids[..i + 1][..i] == ids[..i];
      if k >= 0 {
        AtSnoc(ts, taken, k);
        newOrder := newOrder + [ts[k]];
        taken := taken + [k];
      }
      i := i + 1;
    }
    assert ids[..|ids|] == ids;
    TakenIsPicked(ts, ids);
  }

  /** The second loop of `reorderFromDom`: every task not taken is appended, in list order. */
  method AppendRest(ts: seq<Task>, picked: seq<Task>, taken: seq<nat>) returns (newOrder: seq<Task>)
    requires forall i :: 0 <= i < |taken| ==> taken[i] < |ts|
    requires picked == At(ts, taken)
    ensures newOrder == At(ts, taken + Unpicked(taken, |ts|))
  {
    newOrder := picked;
    ghost var order := taken;
    assert Unpicked(taken, 0) == [] && taken + [] == taken;
    var j := 0;
    while j < |ts|
      invariant 0 <= j <= |ts|
      invariant order == taken + Unpicked(taken, j)
      invariant forall i :: 0 <= i < |order| ==> order[i] < |ts|
      invariant newOrder == At(ts, order)
    {
      UnpickedStep(taken, j);
      if j !in taken {
        AtSnoc(ts, order, j);
        newOrder := newOrder + [ts[j]];
        order := order + [j];
      }
      j := j + 1;
    }
  }

  /** Taking one more position appends that position's task. */
  lemma AtSnoc(tasks: seq<Task>, order: seq<nat>, k: nat)
    requires k < |tasks| && forall i :: 0 <= i < |order| ==> order[i] < |tasks|
    ensures At(tasks, order + [k]) == At(tasks, order) + [tasks[k]]
  {
  }

  /** The second loop's next step. */
  lemma UnpickedStep(taken: seq<nat>, j: nat)
    ensures taken + Unpicked(taken, j + 1) == taken + Unpicked(taken, j) + (if j in taken then [] else [j])
  {
  }

  /** One more listed id extends the taken positions by that id's task, if there is one. */
  lemma PickedStep(tasks: seq<Task>, ids: seq<int>, i: nat)
    requires i < |ids|
    ensures var k := IndexOfId(tasks, ids[i]);
            Picked(tasks, ids[..i + 1]) == Picked(tasks, ids[..i]) + (if k >= 0 then [k] else [])
  {
    var keep := (id: int) => IndexOfId(tasks, id) >= 0;
    assert ids[..i + 1] == ids[..i] + [ids[i]];
    FilterConcat(keep, ids[..i], [ids[i]]);
  }
}
