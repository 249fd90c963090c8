/** The board-state handlers of the `KanbanBoard` component: the columns and
    tasks it holds, the drag fields, and what each handler does to them.
    A handler returns the next state, the service calls it issues (with the
    payloads it sends) and whether it asks for a full reload; the outcome of
    a service call is an input. */
module KanbanBoard {
  import opened Wrappers
  import opened Sequences
  import Text
  import TaskService
  import ColumnService

  type Task = TaskService.Task
  type Column = ColumnService.Column

  /** The component's state variables. */
  datatype BoardState = BoardState(
    tasks: seq<Task>,
    columns: seq<Column>,
    loading: bool,
    error: string,
    draggedTask: Option<Task>,
    draggedColumn: Option<Column>,
    isDraggingColumn: bool,
    showTaskModal: bool,
    showColumnModal: bool)

  /** One entry of the position batch sent after a reorder. */
  datatype PositionUpdate = PositionUpdate(id: string, position: int)

  /** A service call a handler issues. */
  datatype Call =
    | UpdatePositions(batch: seq<PositionUpdate>)
    | UpdateTask(taskId: int, patch: TaskService.TaskPatch)
    | CreateTask(draft: TaskService.TaskDraft)
    | DeleteTask(deletedId: int)
    | CreateColumn(columnDraft: ColumnService.ColumnDraft)

  /** What a handler leaves behind. */
  datatype Handled = Handled(state: BoardState, calls: seq<Call>, reload: bool)

  /** The state before the first load. */
  const Initial := BoardState([], [], true, "", None, None, false, false, false)

  /** The message shown when loading fails. */
  const LoadFailed := "Failed to load board data"

  /** Column positions are exactly 1, 2, ..., n in list order. */
  predicate DensePositions(columns: seq<Column>) {
    forall i :: 0 <= i < |columns| ==> columns[i].position == i + 1
  }

  /** A column with its position erased, to compare everything else. */
  function Unpositioned(c: Column): Column { c.(position := 0) }

  /** `loadData`: nothing without a board id; otherwise both lists are
      replaced by the services' `getAll` answers, or the error is set. No
      other state variable changes. */
  function LoadData(st: BoardState, boardId: Option<int>, taskStore: seq<Task>,
                    columnStore: seq<Column>, ok: bool): (r: BoardState)
    ensures boardId.None? || boardId.value == 0 ==> r == st
    ensures boardId.Some? && boardId.value != 0 && ok ==>
      && r.tasks == taskStore
      && ColumnService.SortedByPosition(r.columns)
      && multiset(r.columns) == multiset(columnStore)
      && (forall p :: ColumnService.AtPosition(r.columns, p) == ColumnService.AtPosition(columnStore, p))
      && !r.loading && r.error == ""
      && r.(tasks := st.tasks, columns := st.columns, loading := st.loading, error := st.error) == st
    ensures boardId.Some? && boardId.value != 0 && !ok ==>
      r == st.(loading := false, error := LoadFailed)
  {
    if boardId.None? || boardId.value == 0 then st
    else if ok then
      st.(tasks := TaskService.GetAll(taskStore), columns := ColumnService.GetAll(columnStore),
          loading := false, error := "")
    else st.(loading := false, error := LoadFailed)
  }

  /** Mounted without a board id, the board never leaves its loading state:
      `loadData` returns before clearing the flag, so the loading screen
      stays up and no list is ever filled. */
  lemma NoIdKeepsLoading(boardId: Option<int>, taskStore: seq<Task>, columnStore: seq<Column>, ok: bool)
    requires boardId.None? || boardId.value == 0
    ensures var r := LoadData(Initial, boardId, taskStore, columnStore, ok);
            r.loading && r.tasks == [] && r.columns == []
  {
  }

  /** `handleColumnDragStart`: the column is grabbed. */
  function ColumnDragStart(st: BoardState, c: Column): (r: BoardState)
    ensures r.draggedColumn == Some(c) && r.isDraggingColumn
    ensures r.(draggedColumn := st.draggedColumn, isDraggingColumn := st.isDraggingColumn) == st
  {
    st.(draggedColumn := Some(c), isDraggingColumn := true)
  }

  /** `handleDragStart`: the task is grabbed. */
  function DragStart(st: BoardState, t: Task): (r: BoardState)
    ensures r.draggedTask == Some(t)
    ensures r.(draggedTask := st.draggedTask) == st
  {
    st.(draggedTask := Some(t))
  }

  /** Every column renumbered to its 1-based place in the list. */
  function Renumber(columns: seq<Column>): (r: seq<Column>)
    ensures |r| == |columns| && DensePositions(r)
    ensures forall i :: 0 <= i < |r| ==> Unpositioned(r[i]) == Unpositioned(columns[i])
  {
    seq(|columns|, i requires 0 <= i < |columns| => columns[i].(position := i + 1))
  }

  /** `updatedColumns.map(col => ({ id: col.id, position: col.position }))`. */
  function PositionsOf(columns: seq<Column>): (r: seq<PositionUpdate>)
    ensures |r| == |columns|
    ensures forall i :: 0 <= i < |r| ==> r[i] == PositionUpdate(columns[i].id, columns[i].position)
  {
    Keys(columns, (c: Column) => PositionUpdate(c.id, c.position))
  }

  /** The source and target indices of a column drop, when it reorders
      anything: a column is grabbed, the target is another id, and both ids
      are found in the list. */
  function DropIndices(columns: seq<Column>, grabbed: Option<Column>, targetId: string): (r: Option<(nat, nat)>)
    ensures r.Some? ==> r.value.0 < |columns| && r.value.1 < |columns|
    ensures r.Some? ==> grabbed.Some? && grabbed.value.id != targetId
    ensures r.Some? ==> columns[r.value.0].id == grabbed.value.id && columns[r.value.1].id == targetId
    ensures r.Some? ==> r.value.0 != r.value.1
    ensures r.Some? ==> (forall j :: 0 <= j < r.value.0 ==> columns[j].id != grabbed.value.id)
                        && (forall j :: 0 <= j < r.value.1 ==> columns[j].id != targetId)
    ensures r.None? && grabbed.Some? && grabbed.value.id != targetId ==>
      (forall i :: 0 <= i < |columns| ==> columns[i].id != grabbed.value.id)
      || (forall i :: 0 <= i < |columns| ==> columns[i].id != targetId)
  {
    if grabbed.None? || grabbed.value.id == targetId then None
    else
      match (FirstIndex(columns, ColumnService.IdOf, grabbed.value.id),
             FirstIndex(columns, ColumnService.IdOf, targetId))
      case (Some(src), Some(tgt)) => Some((src, tgt))
      case _ => None
  }

  /** `handleColumnDrop`: a real drop moves the grabbed column to the
      target's index, renumbers every column, sends the whole position batch
      and, when that fails, asks for a reload; every path clears the column
      drag fields. */
  function ColumnDrop(st: BoardState, targetId: string, persisted: bool): (r: Handled)
    ensures r.state.draggedColumn.None? && !r.state.isDraggingColumn
    ensures r.state.(columns := st.columns, draggedColumn := st.draggedColumn,
                     isDraggingColumn := st.isDraggingColumn) == st
    ensures DropIndices(st.columns, st.draggedColumn, targetId).None? ==>
      r.state.columns == st.columns && r.calls == [] && !r.reload
    ensures DropIndices(st.columns, st.draggedColumn, targetId).Some? ==>
      var (src, tgt) := DropIndices(st.columns, st.draggedColumn, targetId).value;
      && |r.state.columns| == |st.columns|
      && DensePositions(r.state.columns)
      && Unpositioned(r.state.columns[tgt]) == Unpositioned(st.columns[src])
      && (forall i :: 0 <= i < |st.columns| ==>
            Unpositioned(r.state.columns[i]) == Unpositioned(Move(st.columns, src, tgt)[i]))
      && r.calls == [UpdatePositions(PositionsOf(r.state.columns))]
      && r.reload == !persisted
  {
    var cleared := st.(draggedColumn := None, isDraggingColumn := false);
    match DropIndices(st.columns, st.draggedColumn, targetId)
    case None => Handled(cleared, [], false)
    case Some((src, tgt)) =>
      var updated := Renumber(Move(st.columns, src, tgt));
      Handled(cleared.(columns := updated), [UpdatePositions(PositionsOf(updated))], !persisted)
  }

  /** `tasks.map(task => task.Id === id ? { ...task, column } : task)`. */
  function SetColumn(tasks: seq<Task>, id: int, column: string): (r: seq<Task>)
    ensures |r| == |tasks|
    ensures forall i :: 0 <= i < |r| && tasks[i].Id == id ==>
      r[i] == tasks[i].(content := tasks[i].content.(column := column))
    ensures forall i :: 0 <= i < |r| && tasks[i].Id != id ==> r[i] == tasks[i]
  {
    seq(|tasks|, i requires 0 <= i < |tasks| =>
      if tasks[i].Id == id then tasks[i].(content := tasks[i].content.(column := column)) else tasks[i])
  }

  /** `handleDrop`: dropping the grabbed task onto another column sends the
      whole task, re-columned, to `update`; only when that succeeds does the
      local list change. The grabbed task is released on every path. */
  function TaskDrop(st: BoardState, targetColumnId: string, updated: bool): (r: Handled)
    ensures r.state.draggedTask.None? && !r.reload
    ensures r.state.(tasks := st.tasks, draggedTask := st.draggedTask) == st
    ensures st.draggedTask.None? || st.draggedTask.value.content.column == targetColumnId ==>
      r.state.tasks == st.tasks && r.calls == []
    ensures st.draggedTask.Some? && st.draggedTask.value.content.column != targetColumnId ==>
      var t := st.draggedTask.value;
      && r.calls == [UpdateTask(t.Id, TaskService.WholeTask(t.(content := t.content.(column := targetColumnId))))]
      && |r.state.tasks| == |st.tasks|
      && (!updated ==> r.state.tasks == st.tasks)
      && (updated ==> forall i :: 0 <= i < |st.tasks| ==>
            if st.tasks[i].Id == t.Id
            then r.state.tasks[i] == st.tasks[i].(content := st.tasks[i].content.(column := targetColumnId))
            else r.state.tasks[i] == st.tasks[i])
  {
    var cleared := st.(draggedTask := None);
    if st.draggedTask.None? || st.draggedTask.value.content.column == targetColumnId then
      Handled(cleared, [], false)
    else
      var t := st.draggedTask.value;
      var payload := TaskService.WholeTask(t.(content := t.content.(column := targetColumnId)));
      var tasks := if updated then SetColumn(st.tasks, t.Id, targetColumnId) else st.tasks;
      Handled(cleared.(tasks := tasks), [UpdateTask(t.Id, payload)], false)
  }

  /** `getTasksForColumn`: the tasks whose `column` is `columnId`, in list order. */
  function TasksForColumn(tasks: seq<Task>, columnId: string): (r: seq<Task>)
    ensures forall t :: t in r <==> t in tasks && t.content.column == columnId
    ensures IsSubsequence(r, tasks)
    ensures forall t :: multiset(r)[t] == if t.content.column == columnId then multiset(tasks)[t] else 0
  {
    Filter(tasks, (t: Task) => t.content.column == columnId)
  }

  /** `handleCreateTask`: the payload goes to `create`; on success the
      record the service returns is appended and the task modal closes. */
  function CreateTaskHandler(st: BoardState, taskData: TaskService.TaskDraft, created: Option<Task>): (r: Handled)
    ensures r.calls == [CreateTask(taskData)] && !r.reload
    ensures created.None? ==> r.state == st
    ensures created.Some? ==>
      r.state == st.(tasks := st.tasks + [created.value], showTaskModal := false)
  {
    if created.Some? then
      Handled(st.(tasks := st.tasks + [created.value], showTaskModal := false), [CreateTask(taskData)], false)
    else Handled(st, [CreateTask(taskData)], false)
  }

  /** `handleDeleteTask`: on success every task with the id leaves the list,
      the others keeping their order. */
  function DeleteTaskHandler(st: BoardState, taskId: int, deleted: bool): (r: Handled)
    ensures r.calls == [DeleteTask(taskId)] && !r.reload
    ensures r.state.(tasks := st.tasks) == st
    ensures !deleted ==> r.state.tasks == st.tasks
    ensures deleted ==>
      && (forall t :: t in r.state.tasks <==> t in st.tasks && t.Id != taskId)
      && IsSubsequence(r.state.tasks, st.tasks)
      && (forall t :: multiset(r.state.tasks)[t] == if t.Id != taskId then multiset(st.tasks)[t] else 0)
  {
    var tasks := if deleted then Filter(st.tasks, (t: Task) => t.Id != taskId) else st.tasks;
    Handled(st.(tasks := tasks), [DeleteTask(taskId)], false)
  }

  /** `handleCreateColumnSubmit`: `create` receives only the trimmed title;
      on success the returned column is appended and the column modal closes. */
  function CreateColumnHandler(st: BoardState, title: string, created: Option<Column>): (r: Handled)
    ensures r.calls == [CreateColumn(ColumnService.ColumnDraft(None, Text.Trim(title), None))] && !r.reload
    ensures created.None? ==> r.state == st
    ensures created.Some? ==>
      r.state == st.(columns := st.columns + [created.value], showColumnModal := false)
  {
    var call := CreateColumn(ColumnService.ColumnDraft(None, Text.Trim(title), None));
    if created.Some? then
      Handled(st.(columns := st.columns + [created.value], showColumnModal := false), [call], false)
    else Handled(st, [call], false)
  }

  /** Dropping the grabbed column on itself changes nothing but the drag
      fields and calls no service. */
  lemma ColumnSelfDropIsNoOp(st: BoardState, persisted: bool)
    requires st.draggedColumn.Some?
    ensures var r := ColumnDrop(st, st.draggedColumn.value.id, persisted);
            r.state == st.(draggedColumn := None, isDraggingColumn := false) && r.calls == [] && !r.reload
  {
  }

  /** Dropping a task on its own column changes nothing but the drag field
      and calls no service. */
  lemma TaskSameColumnDropIsNoOp(st: BoardState, updated: bool)
    requires st.draggedTask.Some?
    ensures var r := TaskDrop(st, st.draggedTask.value.content.column, updated);
            r.state == st.(draggedTask := None) && r.calls == []
  {
  }

  /** One column drag gesture: the column grabbed, the id it is dropped on,
      whether the position update succeeded, and what the reload a failure
      triggers reads (the board id, both stores, whether loading succeeds). */
  datatype ColumnGesture = ColumnGesture(
    grabbed: Column,
    targetId: string,
    persisted: bool,
    boardId: Option<int>,
    taskStore: seq<Task>,
    columnStore: seq<Column>,
    loaded: bool)

  /** `handleColumnDragStart` then `handleColumnDrop`, followed by the
      `loadData` the drop's catch runs when the update fails. */
  function Gesture(st: BoardState, g: ColumnGesture): BoardState {
    var h := ColumnDrop(ColumnDragStart(st, g.grabbed), g.targetId, g.persisted);
    if h.reload then LoadData(h.state, g.boardId, g.taskStore, g.columnStore, g.loaded) else h.state
  }

  /** The state after each gesture in turn. */
  function GestureAll(st: BoardState, gs: seq<ColumnGesture>): BoardState
    decreases |gs|
  {
    if |gs| == 0 then st else GestureAll(Gesture(st, gs[0]), gs[1..])
  }

  /** Every reload a gesture may trigger reads columns numbered 1..n. */
  predicate ReloadsDense(gs: seq<ColumnGesture>) {
    forall k :: 0 <= k < |gs| ==> DensePositions(ColumnService.GetAll(gs[k].columnStore))
  }

  /** One gesture keeps positions 1..n, whatever the update's outcome, when
      the reload it may trigger reads a store numbered 1..n. */
  lemma GestureKeepsPositionsDense(st: BoardState, g: ColumnGesture)
    requires DensePositions(st.columns) && DensePositions(ColumnService.GetAll(g.columnStore))
    ensures DensePositions(Gesture(st, g).columns)
  {
  }

  /** Positions stay 1..n through any sequence of column drags, whatever the
      outcome of each position update, as long as every reload reads a store
      numbered 1..n. */
  lemma {:induction false} DropsKeepPositionsDense(st: BoardState, gs: seq<ColumnGesture>)
    requires DensePositions(st.columns) && ReloadsDense(gs)
    ensures DensePositions(GestureAll(st, gs).columns)
    decreases |gs|
  {
    if |gs| > 0 {
      GestureKeepsPositionsDense(st, gs[0]);
      assert ReloadsDense(gs[1..]) by {
        forall k | 0 <= k < |gs[1..]| ensures DensePositions(ColumnService.GetAll(gs[1..][k].columnStore)) {
          assert gs[1..][k] == gs[k + 1];
        }
      }
      DropsKeepPositionsDense(Gesture(st, gs[0]), gs[1..]);
    }
  }

  /** Without that assumption a failed update can leave other numbers, even
      on a board numbered 1..n: the reload shows the store's positions, here
      5 for a lone column. */
  lemma ReloadCanBreakDensity(st: BoardState, c1: Column, c2: Column)
    requires st.columns == [c1, c2] && c1.id != c2.id
    ensures var g := ColumnGesture(c1, c2.id, false, Some(1), [], [c1.(position := 5)], true);
            !DensePositions(Gesture(st, g).columns)
  {
    var store := [c1.(position := 5)];
    assert ColumnService.IdOf([c1, c2][0]) == c1.id && ColumnService.IdOf([c1, c2][1]) == c2.id;
    assert FirstIndex([c1, c2], ColumnService.IdOf, c1.id) == Some(0);
    assert FirstIndex([c1, c2], ColumnService.IdOf, c2.id) == Some(1);
    assert ColumnService.SortByPosition(store) == store;
  }

  /** The update a task drop sends, applied to a store whose record agrees
      with the grabbed task on id, content and creation stamp, re-columns
      exactly that record and stamps it; its id, creation stamp and other
      fields are kept. The board's copy may carry an older update stamp, as
      it does after an earlier move of the same task. */
  lemma TaskMovePersists(st: BoardState, targetColumnId: string, store: seq<Task>, i: nat,
                         now: TaskService.Stamp)
    requires i < |store| && forall j :: 0 <= j < i ==> store[j].Id != store[i].Id
    requires st.draggedTask.Some? && store[i].content.column != targetColumnId
    requires var d := st.draggedTask.value;
             d.Id == store[i].Id && d.content == store[i].content && d.createdAt == store[i].createdAt
    ensures var call := TaskDrop(st, targetColumnId, true).calls[0];
            TaskService.Update(store, call.taskId, call.patch, now).store
              == store[i := store[i].(content := store[i].content.(column := targetColumnId), updatedAt := now)]
  {
    var t := store[i];
    var d := st.draggedTask.value;
    var moved := d.(content := d.content.(column := targetColumnId));
    TaskService.MergeWholeTask(t.content, moved);
    assert TaskService.IdOf(t) == t.Id;
    assert FirstIndex(store, TaskService.IdOf, t.Id) == Some(i);
  }

  /** Distinct columns receive disjoint tasks, and every task appears under
      its own column. */
  lemma ColumnsPartitionTasks(tasks: seq<Task>, c1: string, c2: string)
    requires c1 != c2
    ensures forall t :: !(t in TasksForColumn(tasks, c1) && t in TasksForColumn(tasks, c2))
    ensures forall t :: t in tasks ==> t in TasksForColumn(tasks, t.content.column)
  {
  }

  /** The board's per-column projection agrees with the service's `getByColumn`. */
  lemma ProjectionMatchesService(tasks: seq<Task>, c: string)
    ensures TasksForColumn(tasks, c) == TaskService.GetByColumn(tasks, c)
  {
  }

  /** The documented reorder example: dropping C3 on C1 in [C1, C2, C3]
      gives [C3, C1, C2] with positions 1, 2, 3. */
  lemma ReorderExample(st: BoardState, c1: Column, c2: Column, c3: Column)
    requires st.columns == [c1, c2, c3] && st.draggedColumn == Some(c3)
    requires c1.id != c2.id && c1.id != c3.id && c2.id != c3.id
    ensures ColumnDrop(st, c1.id, true).state.columns
            == [c3.(position := 1), c1.(position := 2), c2.(position := 3)]
  {
    ExampleIndices(c1, c2, c3);
    ExampleMove(c1, c2, c3);
    ExampleRenumber(c1, c2, c3);
  }

  lemma ExampleIndices(c1: Column, c2: Column, c3: Column)
    requires c1.id != c2.id && c1.id != c3.id && c2.id != c3.id
    ensures DropIndices([c1, c2, c3], Some(c3), c1.id) == Some((2, 0))
  {
    var cols := [c1, c2, c3];
    assert ColumnService.IdOf(cols[0]) == c1.id && ColumnService.IdOf(cols[1]) == c2.id
        && ColumnService.IdOf(cols[2]) == c3.id;
    assert FirstIndex(cols, ColumnService.IdOf, c3.id) == Some(2);
    assert FirstIndex(cols, ColumnService.IdOf, c1.id) == Some(0);
  }

  lemma ExampleMove<R>(c1: R, c2: R, c3: R)
    ensures Move([c1, c2, c3], 2, 0) == [c3, c1, c2]
  {
    assert RemoveAt([c1, c2, c3], 2) == [c1, c2];
    assert InsertAt([c1, c2], 0, c3) == [c3, c1, c2];
  }

  lemma ExampleRenumber(c1: Column, c2: Column, c3: Column)
    ensures Renumber([c3, c1, c2]) == [c3.(position := 1), c1.(position := 2), c2.(position := 3)]
  {
    var updated := Renumber([c3, c1, c2]);
    assert updated[0] == c3.(position := 1);
    assert updated[1] == c1.(position := 2);
    assert updated[2] == c2.(position := 3);
  }
}
