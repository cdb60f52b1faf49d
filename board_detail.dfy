/** The ordering and form logic of the board page (`BoardDetail`): the
    grouping of tasks under their columns, the fractional position a
    dropped task gets, the tag field, the task form and its request, the
    move guard of a drop, and the tag colours. */
module BoardDetail {
  import opened Wrappers
  import opened Text
  import opened Models
  import opened Ordering

  // ---------------------------------------------------------------
  // Columns with their tasks
  // ---------------------------------------------------------------

  function ColumnPosition(c: Column): real { c.position }
  function TaskPosition(t: Task): real { t.position }

  /** A column as the page shows it, with its own tasks. */
  datatype ColumnWithTasks = ColumnWithTasks(column: Column, tasks: seq<Task>)

  /** `tasks.filter(task => task.columnId === columnId)`: the tasks of one
      column, each as often as in `tasks`, in their original order. */
  function TasksOf(tasks: seq<Task>, columnId: string): (r: seq<Task>)
    ensures |r| <= |tasks|
    ensures forall i :: 0 <= i < |r| ==> r[i].columnId == columnId
    ensures forall t :: multiset(r)[t] == if t.columnId == columnId then multiset(tasks)[t] else 0
  {
    if tasks == [] then []
    else
      assert tasks == [tasks[0]] + tasks[1..];
      (if tasks[0].columnId == columnId then [tasks[0]] else []) + TasksOf(tasks[1..], columnId)
  }

  /** One column's tasks, sorted by position. */
  method SortedTasksOf(tasks: seq<Task>, columnId: string) returns (sorted: seq<Task>)
    ensures SortedBy(sorted, TaskPosition)
    ensures multiset(sorted) == multiset(TasksOf(tasks, columnId))
  {
    var own := TasksOf(tasks, columnId);
    var a := new Task[|own|](k requires 0 <= k < |own| => own[k]);
    assert a[..] == own;
    SortInPlace(a, TaskPosition);
    sorted := a[..];
  }

  /** `organizeColumnsWithTasks`: sorts the board's columns in place by
      position, then pairs each with its own tasks sorted by position. A
      task whose column is not on the board is in no group. */
  method OrganizeColumnsWithTasks(columns: array<Column>, tasks: seq<Task>) returns (organized: seq<ColumnWithTasks>)
    modifies columns
    ensures SortedBy(columns[..], ColumnPosition)
    ensures multiset(columns[..]) == multiset(old(columns[..]))
    ensures |organized| == columns.Length
    ensures forall i :: 0 <= i < |organized| ==> organized[i].column == columns[i]
    ensures forall i :: 0 <= i < |organized| ==> SortedBy(organized[i].tasks, TaskPosition)
    ensures forall i :: 0 <= i < |organized| ==>
              multiset(organized[i].tasks) == multiset(TasksOf(tasks, columns[i].id))
  {
    SortInPlace(columns, ColumnPosition);
    var sortedColumns := columns[..];
    organized := [];
    var i := 0;
    while i < |sortedColumns|
      invariant 0 <= i <= |sortedColumns| && |organized| == i
      invariant columns[..] == sortedColumns
      invariant forall k :: 0 <= k < i ==> organized[k].column == sortedColumns[k]
      invariant forall k :: 0 <= k < i ==> SortedBy(organized[k].tasks, TaskPosition)
      invariant forall k :: 0 <= k < i ==> multiset(organized[k].tasks) == multiset(TasksOf(tasks, sortedColumns[k].id))
    {
      var own := SortedTasksOf(tasks, sortedColumns[i].id);
      organized := organized + [ColumnWithTasks(sortedColumns[i], own)];
      i := i + 1;
    }
  }

  // ---------------------------------------------------------------
  // Fractional positions
  // ---------------------------------------------------------------

  /** The gap left after the last task, and the position of a lone task. */
  const POSITION_STEP: real := 10000.0

  /** `calculateNewPosition(tasks, index)`, on the column as it is after the
      drop, with the dropped task at `index`: a lone task gets 10000, the
      first half its successor's position, the last its predecessor's plus
      10000, any other the midpoint of its neighbours. */
  function CalculateNewPosition(tasks: seq<Task>, index: nat): (p: real)
    requires index < |tasks|
    ensures |tasks| == 1 ==> p == POSITION_STEP
    ensures |tasks| > 1 && index == 0 ==> p * 2.0 == tasks[1].position
    ensures |tasks| > 1 && index == 0 && tasks[1].position > 0.0 ==> 0.0 < p < tasks[1].position
    ensures |tasks| > 1 && index == |tasks| - 1 ==> p == tasks[index - 1].position + POSITION_STEP
    ensures |tasks| > 1 && 0 < index < |tasks| - 1 ==> p * 2.0 == tasks[index - 1].position + tasks[index + 1].position
    ensures |tasks| > 1 && 0 < index < |tasks| - 1 && tasks[index - 1].position < tasks[index + 1].position ==>
              tasks[index - 1].position < p < tasks[index + 1].position
  {
    if |tasks| == 1 then POSITION_STEP
    else if index == 0 then tasks[1].position / 2.0
    else if index == |tasks| - 1 then tasks[index - 1].position + POSITION_STEP
    else (tasks[index - 1].position + tasks[index + 1].position) / 2.0
  }

  /** The result depends on the neighbours' positions only: not on the
      dropped task, nor on any other task. */
  lemma OnlyNeighboursRead(tasks: seq<Task>, other: seq<Task>, index: nat)
    requires index < |tasks| == |other|
    requires index > 0 ==> other[index - 1].position == tasks[index - 1].position
    requires index + 1 < |tasks| ==> other[index + 1].position == tasks[index + 1].position
    ensures CalculateNewPosition(other, index) == CalculateNewPosition(tasks, index)
  {
  }

  /** Every position is positive. */
  predicate AllPositive(tasks: seq<Task>) {
    forall i :: 0 <= i < |tasks| ==> tasks[i].position > 0.0
  }

  /** Putting `x` at `index` into a strictly ascending column keeps it
      strictly ascending when `x` lies strictly between its new neighbours. */
  lemma InsertBetween(others: seq<Task>, x: Task, index: nat)
    requires index <= |others| && StrictlySortedBy(others, TaskPosition)
    requires index > 0 ==> others[index - 1].position < x.position
    requires index < |others| ==> x.position < others[index].position
    ensures StrictlySortedBy(others[..index] + [x] + others[index..], TaskPosition)
  {
    var placed := others[..index] + [x] + others[index..];
    forall k, l | 0 <= k < l < |placed| ensures placed[k].position < placed[l].position {
      if l < index {
        assert placed[k] == others[k] && placed[l] == others[l];
      } else if l == index {
        assert placed[k] == others[k];
        assert k == index - 1 || others[k].position < others[index - 1].position;
      } else if k < index {
        assert placed[k] == others[k] && placed[l] == others[l - 1];
        assert k == index - 1 || others[k].position < others[index - 1].position;
        assert l - 1 == index || others[index].position < others[l - 1].position;
      } else if k == index {
        assert placed[l] == others[l - 1];
        assert l - 1 == index || others[index].position < others[l - 1].position;
      } else {
        assert placed[k] == others[k - 1] && placed[l] == others[l - 1];
      }
    }
  }

  /** Dropping a task anywhere into a column whose positions are positive
      and strictly ascending, and giving it the computed position, leaves
      the positions positive and strictly ascending. */
  lemma DropKeepsOrder(others: seq<Task>, moved: Task, index: nat)
    requires index <= |others|
    requires StrictlySortedBy(others, TaskPosition) && AllPositive(others)
    ensures var p := CalculateNewPosition(others[..index] + [moved] + others[index..], index);
      var placed := others[..index] + [moved.(position := p)] + others[index..];
      StrictlySortedBy(placed, TaskPosition) && AllPositive(placed)
  {
    var dropped := others[..index] + [moved] + others[index..];
    var p := CalculateNewPosition(dropped, index);
    var x := moved.(position := p);
    if 0 < index {
      assert dropped[index - 1] == others[index - 1];
    }
    if index < |others| {
      assert dropped[index + 1] == others[index];
    }
    assert p > 0.0;
    InsertBetween(others, x, index);
    var placed := others[..index] + [x] + others[index..];
    forall k | 0 <= k < |placed| ensures placed[k].position > 0.0 {
      if k < index {
        assert placed[k] == others[k];
      } else if k > index {
        assert placed[k] == others[k - 1];
      }
    }
  }

  // ---------------------------------------------------------------
  // Drag and drop
  // ---------------------------------------------------------------

  /** The body of a move call: the target column and the new position. */
  datatype MoveRequest = MoveRequest(columnId: string, position: real)

  /** The move a drop sends, given the target column as it is after the
      drop and the dropped task as it was before: within one column only
      a changed position is sent; across columns the move is always sent. */
  function DropRequest(task: Task, sameColumn: bool, columnId: string, column: seq<Task>, currentIndex: nat): (r: Option<MoveRequest>)
    requires currentIndex < |column|
    ensures sameColumn ==> (r.Some? <==> CalculateNewPosition(column, currentIndex) != task.position)
    ensures sameColumn && r.Some? ==> r.value.columnId == task.columnId
    ensures !sameColumn ==> r == Some(MoveRequest(columnId, CalculateNewPosition(column, currentIndex)))
    ensures r.Some? ==> r.value.position == CalculateNewPosition(column, currentIndex)
  {
    var p := CalculateNewPosition(column, currentIndex);
    if sameColumn then (if p != task.position then Some(MoveRequest(task.columnId, p)) else None)
    else Some(MoveRequest(columnId, p))
  }

  /** The task once the server has accepted the move. */
  function AfterMove(task: Task, move: MoveRequest): (t: Task)
    ensures t.columnId == move.columnId && t.position == move.position
    ensures t.(columnId := task.columnId, position := task.position) == task
  {
    task.(columnId := move.columnId, position := move.position)
  }

  /** A drop within one column that keeps the task's position sends
      nothing; once a sent move is accepted, dropping the task again at
      the same place sends nothing either. */
  lemma RepeatedDropIsQuiet(task: Task, column: seq<Task>, currentIndex: nat)
    requires currentIndex < |column|
    requires DropRequest(task, true, task.columnId, column, currentIndex).Some?
    ensures var moved := AfterMove(task, DropRequest(task, true, task.columnId, column, currentIndex).value);
      DropRequest(moved, true, moved.columnId, column, currentIndex).None?
  {
  }

  // ---------------------------------------------------------------
  // Tags
  // ---------------------------------------------------------------

  /** Each string trimmed. */
  function TrimAll(pieces: seq<string>): (r: seq<string>)
    ensures |r| == |pieces|
    ensures forall i :: 0 <= i < |pieces| ==> r[i] == Trim(pieces[i])
  {
    seq(|pieces|, i requires 0 <= i < |pieces| => Trim(pieces[i]))
  }

  /** `filter(t => t.length > 0)`: the non-empty strings, in order. */
  function NonEmpty(pieces: seq<string>): (r: seq<string>)
    ensures |r| <= |pieces|
    ensures forall i :: 0 <= i < |r| ==> r[i] != [] && r[i] in pieces
    ensures forall x :: x in pieces && x != [] ==> x in r
    ensures forall x :: multiset(r)[x] == if x == [] then 0 else multiset(pieces)[x]
  {
    if pieces == [] then []
    else
      assert pieces == [pieces[0]] + pieces[1..];
      (if pieces[0] != [] then [pieces[0]] else []) + NonEmpty(pieces[1..])
  }

  /** The filter works piece by piece, so the kept strings keep their order. */
  lemma {:induction false} NonEmptyDistributes(a: seq<string>, b: seq<string>)
    ensures NonEmpty(a + b) == NonEmpty(a) + NonEmpty(b)
  {
    if a == [] {
      assert a + b == b;
    } else {
      assert (a + b)[0] == a[0] && (a + b)[1..] == a[1..] + b;
      NonEmptyDistributes(a[1..], b);
    }
  }

  /** Keeping the non-empty strings of a list that has no empty one keeps all. */
  lemma {:induction false} NonEmptyKeepsAll(pieces: seq<string>)
    requires forall i :: 0 <= i < |pieces| ==> pieces[i] != []
    ensures NonEmpty(pieces) == pieces
  {
    if pieces != [] {
      NonEmptyKeepsAll(pieces[1..]);
      assert [pieces[0]] + pieces[1..] == pieces;
    }
  }

  /** White space holds no comma. */
  lemma BlankHasNoComma(s: string)
    requires IsBlank(s)
    ensures ',' !in s
  {
    assert forall k :: 0 <= k < |s| ==> s[k] != ',' by {
      forall k | 0 <= k < |s| ensures s[k] != ',' {
        assert IsSpace(s[k]);
      }
    }
  }

  /** The comma path of `onTagsChange`: the `,`-separated pieces, trimmed,
      empty ones dropped, in order. */
  function CommaTags(s: string): (r: seq<string>)
    ensures forall i :: 0 <= i < |r| ==> r[i] != [] && ',' !in r[i]
    ensures forall i :: 0 <= i < |r| ==> IsTrimmed(r[i])
    ensures IsBlank(s) ==> r == []
  {
    var pieces := Split(s, ',');
    var trimmed := TrimAll(pieces);
    assert forall x :: x in trimmed ==> ',' !in x && IsTrimmed(x) by {
      forall x | x in trimmed ensures ',' !in x && IsTrimmed(x) {
        var i :| 0 <= i < |trimmed| && trimmed[i] == x;
        assert x == Trim(pieces[i]);
      }
    }
    assert IsBlank(s) ==> NonEmpty(trimmed) == [] by {
      if IsBlank(s) {
        BlankHasNoComma(s);
        SplitWithoutSeparator(s, ',');
        assert trimmed == [[]];
        assert NonEmpty(trimmed) == [] + NonEmpty([]);
      }
    }
    NonEmpty(trimmed)
  }

  /** Splitting a comma-joined list gives back its pieces, trimmed, with
      the empty ones dropped. */
  lemma CommaTagsOfJoin(pieces: seq<string>)
    requires |pieces| >= 1
    requires forall i :: 0 <= i < |pieces| ==> ',' !in pieces[i]
    ensures CommaTags(Join(pieces, ',')) == NonEmpty(TrimAll(pieces))
  {
    SplitJoin(pieces, ',');
  }

  /** Trimming strings that are already trimmed changes nothing. */
  lemma TrimAllOfTrimmed(pieces: seq<string>)
    requires forall i :: 0 <= i < |pieces| ==> IsTrimmed(pieces[i])
    ensures TrimAll(pieces) == pieces
  {
    forall i | 0 <= i < |pieces| ensures TrimAll(pieces)[i] == pieces[i] {
      TrimOfTrimmed(pieces[i]);
    }
  }

  /** Tags that are non-empty, already trimmed and free of commas survive
      a round trip through the comma-separated field unchanged. */
  lemma TagsRoundTrip(tags: seq<string>)
    requires |tags| >= 1
    requires forall i :: 0 <= i < |tags| ==> tags[i] != [] && IsTrimmed(tags[i]) && ',' !in tags[i]
    ensures CommaTags(Join(tags, ',')) == tags
  {
    CommaTagsOfJoin(tags);
    TrimAllOfTrimmed(tags);
    NonEmptyKeepsAll(tags);
  }

  /** What `JSON.parse` may return, as far as the tag field cares. */
  datatype Json = JString(s: string) | JArray(items: seq<Json>) | JOther

  /** `JSON.parse`: the parsed value, or `None` where it throws. */
  type JsonParser = string -> Option<Json>

  /** The JSON path's filter: the string items that are not blank (whose
      trimmed form is not empty), kept untrimmed, in order. */
  function JsonTags(items: seq<Json>): (r: seq<string>)
    ensures |r| <= |items|
    ensures forall i :: 0 <= i < |r| ==> !IsBlank(r[i]) && JString(r[i]) in items
    ensures forall x :: JString(x) in items && !IsBlank(x) ==> x in r
  {
    if items == [] then []
    else
      var rest := JsonTags(items[1..]);
      assert forall x :: JString(x) in items ==> JString(x) == items[0] || JString(x) in items[1..];
      assert forall x :: x in rest ==> exists i :: 0 <= i < |rest| && rest[i] == x;
      JsonKept(items[0]) + rest
  }

  /** What the JSON filter keeps of one item: a string that is not blank. */
  function JsonKept(item: Json): seq<string> {
    if item.JString? && !IsBlank(item.s) then [item.s] else []
  }

  /** The JSON filter keeps every non-blank string item as often as it
      occurs, and nothing else. */
  lemma {:induction false} JsonTagsCounts(items: seq<Json>)
    ensures forall x :: multiset(JsonTags(items))[x] == if IsBlank(x) then 0 else multiset(items)[JString(x)]
  {
    if items != [] {
      JsonTagsCounts(items[1..]);
      assert items == [items[0]] + items[1..];
    }
  }

  /** The JSON filter works item by item, so the kept strings keep their order. */
  lemma {:induction false} JsonTagsDistributes(a: seq<Json>, b: seq<Json>)
    ensures JsonTags(a + b) == JsonTags(a) + JsonTags(b)
  {
    if a == [] {
      assert a + b == b;
    } else {
      assert (a + b)[0] == a[0] && (a + b)[1..] == a[1..] + b;
      JsonTagsDistributes(a[1..], b);
    }
  }

  /** `onTagsChange`: the input trimmed; a bracketed value that parses as
      an array gives its non-blank strings, anything else goes through the
      comma path. */
  function TagsFromInput(value: string, parse: JsonParser): (r: seq<string>)
    ensures forall i :: 0 <= i < |r| ==> !IsBlank(r[i])
    ensures IsBlank(value) ==> r == []
    ensures !(StartsWith(Trim(value), "[") && EndsWith(Trim(value), "]")) ==> r == CommaTags(Trim(value))
  {
    var clean := Trim(value);
    if StartsWith(clean, "[") && EndsWith(clean, "]") && parse(clean).Some? && parse(clean).value.JArray? then
      JsonTags(parse(clean).value.items)
    else
      var r := CommaTags(clean);
      assert forall i :: 0 <= i < |r| ==> !IsSpace(r[i][0]);
      r
  }

  // ---------------------------------------------------------------
  // The task form
  // ---------------------------------------------------------------

  /** A `Date` the form holds: a valid date, with the string
      `toISOString` gives for it, or an Invalid Date, on which
      `toISOString` throws a RangeError. */
  datatype FormDate = ValidDate(iso: string) | InvalidDate

  /** `new Date(s).toISOString()`: the ISO string of the date `s` denotes,
      or `None` where `new Date(s)` is an Invalid Date. A parameter. */
  type DateIso = string -> Option<string>

  /** The form fields; `dueAt` is the picked date, null when none is picked. */
  datatype TaskForm = TaskForm(
    title: string, description: string, priority: TaskPriority, dueAt: Option<FormDate>, tags: seq<string>)

  /** `resetTaskForm`. */
  const EmptyTaskForm := TaskForm("", "", Medium, None, [])

  /** `openEditTaskDialog`: the form filled from the task, a missing
      description as the empty string, and the due date through
      `new Date`, where an empty string counts as no date. */
  function FormFromTask(task: Task, iso: DateIso): (f: TaskForm)
    ensures f.title == task.title && f.priority == task.priority && f.tags == task.tags
    ensures f.description == if task.description.Some? then task.description.value else ""
    ensures f.dueAt.None? <==> task.dueAt.None? || task.dueAt.value == ""
    ensures f.dueAt == Some(InvalidDate) <==> task.dueAt.Some? && task.dueAt.value != "" && iso(task.dueAt.value).None?
    ensures f.dueAt.Some? && f.dueAt.value.ValidDate? ==> iso(task.dueAt.value) == Some(f.dueAt.value.iso)
  {
    var due :=
      if task.dueAt.None? || task.dueAt.value == "" then None
      else if iso(task.dueAt.value).None? then Some(InvalidDate)
      else Some(ValidDate(iso(task.dueAt.value).value));
    TaskForm(task.title, task.description.GetOr(""), task.priority, due, task.tags)
  }

  /** The fields common to the create and update requests. */
  datatype TaskRequest = TaskRequest(
    title: string, description: Option<string>, priority: TaskPriority, dueAt: Option<string>, tags: Option<seq<string>>)

  /** The request built from the form: trimmed title, trimmed description
      or nothing, the due date's ISO string or nothing, and the tags or
      nothing when there are none. An Invalid Date makes `toISOString`
      throw, and then no request is built. */
  function BuildTaskRequest(form: TaskForm): (r: Option<TaskRequest>)
    ensures r.None? <==> form.dueAt == Some(InvalidDate)
    ensures r.Some? ==> r.value.title == Trim(form.title) && r.value.priority == form.priority
    ensures r.Some? ==> (r.value.dueAt.None? <==> form.dueAt.None?)
    ensures r.Some? && form.dueAt.Some? ==> r.value.dueAt == Some(form.dueAt.value.iso)
    ensures r.Some? ==> (r.value.description.None? <==> IsBlank(form.description))
    ensures r.Some? && r.value.description.Some? ==> r.value.description.value == Trim(form.description)
    ensures r.Some? ==> (r.value.tags.None? <==> form.tags == [])
    ensures r.Some? && r.value.tags.Some? ==> r.value.tags.value == form.tags
  {
    if form.dueAt == Some(InvalidDate) then None
    else
      var description := Trim(form.description);
      Some(TaskRequest(Trim(form.title), if description == [] then None else Some(description),
                       form.priority, if form.dueAt.None? then None else Some(form.dueAt.value.iso),
                       if form.tags == [] then None else Some(form.tags)))
  }

  /** Editing a task and saving without touching the form sends the task's
      own fields back when they are already in the form the client sends:
      trimmed text, and a due date that is absent or already the ISO
      string of the date it denotes. */
  lemma EditRoundTrip(task: Task, iso: DateIso)
    requires IsTrimmed(task.title)
    requires task.description.Some? ==> task.description.value != [] && IsTrimmed(task.description.value)
    requires task.dueAt.Some? ==> task.dueAt.value != "" && iso(task.dueAt.value) == task.dueAt
    ensures var r := BuildTaskRequest(FormFromTask(task, iso));
      && r.Some?
      && r.value.title == task.title && r.value.description == task.description && r.value.priority == task.priority
      && r.value.dueAt == task.dueAt && (task.tags != [] ==> r.value.tags == Some(task.tags))
  {
    TrimOfTrimmed(task.title);
    if task.description.Some? {
      TrimOfTrimmed(task.description.value);
    } else {
      assert IsBlank(FormFromTask(task, iso).description);
    }
  }

  /** A stored due date that is empty is dropped, and one that `new Date`
      cannot read stops the save: the due date survives editing only in
      its ISO form. */
  lemma EditDropsOrRejectsOtherDates(task: Task, iso: DateIso)
    requires task.dueAt.Some?
    ensures task.dueAt.value == "" ==> BuildTaskRequest(FormFromTask(task, iso)).Some? && BuildTaskRequest(FormFromTask(task, iso)).value.dueAt.None?
    ensures task.dueAt.value != "" && iso(task.dueAt.value).None? ==> BuildTaskRequest(FormFromTask(task, iso)).None?
    ensures task.dueAt.value != "" && iso(task.dueAt.value).Some? ==> BuildTaskRequest(FormFromTask(task, iso)).value.dueAt == iso(task.dueAt.value)
  {
  }

  /** What `saveTask` does before the server answers. */
  datatype SaveTaskOutcome =
    | TitleRequired                                     // blank title: error shown, nothing sent
    | NoTarget                                          // no column (create) or no task (edit): nothing sent
    | InvalidDueDate                                    // `toISOString` throws: nothing sent
    | CreateTask(columnId: string, request: TaskRequest)
    | UpdateTask(taskId: string, request: TaskRequest)
  {
    /** `isSavingTask` once `saveTask` returns. It was set before the
        no-column and no-task checks and before the request is built,
        and neither those paths nor the exception clear it. */
    predicate SavingAfter() {
      !TitleRequired?
    }
  }

  /** `saveTask` with `createTask`/`updateTask`: a blank title stops
      everything; otherwise an edit needs the task being edited and a
      creation needs the selected column. The second title check in
      `createTask` can never fail. */
  function SaveTask(form: TaskForm, editing: bool, currentTask: Option<Task>, selectedColumn: Option<Column>): (o: SaveTaskOutcome)
    ensures o == TitleRequired <==> IsBlank(form.title)
    ensures o == InvalidDueDate <==>
      !IsBlank(form.title) && (if editing then currentTask.Some? else selectedColumn.Some?) && form.dueAt == Some(InvalidDate)
    ensures o.CreateTask? <==> !IsBlank(form.title) && !editing && selectedColumn.Some? && BuildTaskRequest(form).Some?
    ensures o.UpdateTask? <==> !IsBlank(form.title) && editing && currentTask.Some? && BuildTaskRequest(form).Some?
    ensures o.CreateTask? ==> o.columnId == selectedColumn.value.id && Some(o.request) == BuildTaskRequest(form)
    ensures o.UpdateTask? ==> o.taskId == currentTask.value.id && Some(o.request) == BuildTaskRequest(form)
    ensures (o.CreateTask? || o.UpdateTask?) ==> o.request.title != []
  {
    if Trim(form.title) == [] then TitleRequired
    else if editing then
      (if currentTask.None? then NoTarget
       else if BuildTaskRequest(form).None? then InvalidDueDate
       else UpdateTask(currentTask.value.id, BuildTaskRequest(form).value))
    else if selectedColumn.None? then NoTarget
    else if BuildTaskRequest(form).None? then InvalidDueDate
    else CreateTask(selectedColumn.value.id, BuildTaskRequest(form).value)
  }

  // ---------------------------------------------------------------
  // Colours
  // ---------------------------------------------------------------

  /** `getPriorityColor`. */
  function PriorityColor(p: TaskPriority): (s: Severity)
    ensures s == Danger <==> p == High || p == Critical
    ensures s == Info <==> p == Low
    ensures s == Warn <==> p == Medium
  {
    match p
    case Low => Info
    case Medium => Warn
    case High => Danger
    case Critical => Danger
  }

  /** `getStatusColor`. */
  function StatusColor(st: TaskStatus): (s: Severity)
    ensures s == Warn <==> st == InProgress || st == OnHold
    ensures s == Info <==> st == Open
    ensures s == Success <==> st == Completed
    ensures s == Secondary <==> st == Cancelled
  {
    match st
    case Open => Info
    case InProgress => Warn
    case Completed => Success
    case Cancelled => Secondary
    case OnHold => Warn
  }

  // ---------------------------------------------------------------
  // Dates
  // ---------------------------------------------------------------

  /** `formatDate`: the empty string for a missing or empty date, otherwise
      the date in the interface language's format (`localize`). */
  function FormatDate(date: Option<string>, localize: string -> string): (s: string)
    ensures date.None? || date.value == "" ==> s == ""
    ensures date.Some? && date.value != "" ==> s == localize(date.value)
  {
    if date.None? || date.value == "" then "" else localize(date.value)
  }
}
