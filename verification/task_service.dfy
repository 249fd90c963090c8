/** The in-memory task repository (`TaskService`): a sequence of task records
    with max-plus-one id allocation, merge updates and removal by id. Every
    operation takes the store as it stands and returns the store it leaves. */
module TaskService {
  import opened Wrappers
  import opened Sequences
  import Ids
  import Text

  /** An ISO timestamp; the clock is an input of the model. */
  type Stamp = string

  /** The user-editable fields of a task, which are also the fields of the
      create and edit forms. `dueDate` is a day number, None for the empty
      date; `column` refers to a column's `id`; `labels` holds label `Id`s. */
  datatype TaskContent = TaskContent(
    title: string,
    description: string,
    priority: string,
    column: string,
    assignee: string,
    dueDate: Option<int>,
    labels: seq<int>)

  /** A stored task record. */
  datatype Task = Task(Id: int, content: TaskContent, createdAt: Stamp, updatedAt: Stamp)

  /** A `create` payload: every content field, and possibly an `Id` and
      timestamps of its own. */
  datatype TaskDraft = TaskDraft(
    Id: Option<int>,
    content: TaskContent,
    createdAt: Option<Stamp>,
    updatedAt: Option<Stamp>)

  /** An `update` payload: each field is either given (Some) or absent (None). */
  datatype TaskPatch = TaskPatch(
    Id: Option<int>,
    title: Option<string>,
    description: Option<string>,
    priority: Option<string>,
    column: Option<string>,
    assignee: Option<string>,
    dueDate: Option<Option<int>>,
    labels: Option<seq<int>>,
    createdAt: Option<Stamp>,
    updatedAt: Option<Stamp>)

  /** The payload that mentions no field at all. */
  const NoChange := TaskPatch(None, None, None, None, None, None, None, None, None, None)

  /** A whole task record used as an update payload (`{ ...task }`). */
  function WholeTask(t: Task): TaskPatch {
    TaskPatch(Some(t.Id), Some(t.content.title), Some(t.content.description),
              Some(t.content.priority), Some(t.content.column), Some(t.content.assignee),
              Some(t.content.dueDate), Some(t.content.labels), Some(t.createdAt), Some(t.updatedAt))
  }

  function IdOf(t: Task): int { t.Id }

  /** `tasks.map(t => t.Id)`. */
  function IdsOf(tasks: seq<Task>): seq<int> { Keys(tasks, IdOf) }

  /** The message `getById`, `update` and `delete` throw for an absent id. */
  function NotFound(id: int): string {
    "Task with id " + Text.IntToString(id) + " not found"
  }

  /** `getAll`: a copy of the store, in stored order, with no board scoping. */
  function GetAll(tasks: seq<Task>): (r: seq<Task>)
    ensures |r| == |tasks| && forall i :: 0 <= i < |r| ==> r[i] == tasks[i]
  {
    tasks
  }

  /** `getById`: the first record with the id, or the not-found error. */
  function GetById(tasks: seq<Task>, id: int): (r: Result<Task>)
    ensures r.Ok? <==> exists i :: 0 <= i < |tasks| && tasks[i].Id == id
    ensures r.Ok? ==> r.value.Id == id && r.value in tasks
    ensures r.Ok? ==> exists i :: 0 <= i < |tasks| && tasks[i] == r.value && forall j :: 0 <= j < i ==> tasks[j].Id != id
    ensures r.Err? ==> r.message == NotFound(id)
  {
    match FirstIndex(tasks, IdOf, id)
    case None => Err(NotFound(id))
    case Some(i) => Ok(tasks[i])
  }

  /** `create`: `{ Id: max + 1, ...payload, createdAt: now, updatedAt: now }`
      appended to the store. A payload `Id` overrides the allocated one; the
      payload's timestamps are overridden by the clock. */
  function Create(tasks: seq<Task>, draft: TaskDraft, now: Stamp): (r: (seq<Task>, Task))
    ensures r.0 == tasks + [r.1]
    ensures draft.Id.None? ==> forall i :: 0 <= i < |tasks| ==> tasks[i].Id < r.1.Id
    ensures draft.Id.None? ==> r.1.Id >= 1 && (r.1.Id == 1 || exists i :: 0 <= i < |tasks| && tasks[i].Id == r.1.Id - 1)
    ensures draft.Id.None? && tasks == [] ==> r.1.Id == 1
    ensures draft.Id.Some? ==> r.1.Id == draft.Id.value
    ensures r.1.content == draft.content
    ensures r.1.createdAt == now && r.1.updatedAt == now
  {
    var t := Task(draft.Id.GetOr(Ids.NextId(IdsOf(tasks))), draft.content, now, now);
    (tasks + [t], t)
  }

  /** `{ ...old, ...payload }` restricted to the content fields. */
  function Merge(c: TaskContent, p: TaskPatch): TaskContent {
    TaskContent(
      p.title.GetOr(c.title),
      p.description.GetOr(c.description),
      p.priority.GetOr(c.priority),
      p.column.GetOr(c.column),
      p.assignee.GetOr(c.assignee),
      p.dueDate.GetOr(c.dueDate),
      p.labels.GetOr(c.labels))
  }

  /** `update`: the first record with the id becomes
      `{ ...old, ...payload, Id: id, updatedAt: now }`; nothing else changes. */
  function Update(tasks: seq<Task>, id: int, p: TaskPatch, now: Stamp): (r: Reply<Task>)
    ensures match FirstIndex(tasks, IdOf, id)
      case None => r == Reply(tasks, Err(NotFound(id)))
      case Some(i) =>
        && r.result.Ok?
        && r.store == tasks[i := r.result.value]
        && r.result.value.Id == id
        && r.result.value.content == Merge(tasks[i].content, p)
        && r.result.value.createdAt == p.createdAt.GetOr(tasks[i].createdAt)
        && r.result.value.updatedAt == now
  {
    match FirstIndex(tasks, IdOf, id)
    case None => Reply(tasks, Err(NotFound(id)))
    case Some(i) =>
      var prior := tasks[i];
      var t := Task(id, Merge(prior.content, p), p.createdAt.GetOr(prior.createdAt), now);
      Reply(tasks[i := t], Ok(t))
  }

  /** `delete`: the first record with the id is spliced out and returned. */
  function Delete(tasks: seq<Task>, id: int): (r: Reply<Task>)
    ensures (forall j :: 0 <= j < |tasks| ==> tasks[j].Id != id) ==> r == Reply(tasks, Err(NotFound(id)))
    ensures (exists j :: 0 <= j < |tasks| && tasks[j].Id == id) ==>
      && r.result.Ok? && r.result.value.Id == id
      && |r.store| == |tasks| - 1
      && multiset(r.store) + multiset{r.result.value} == multiset(tasks)
      && IsSubsequence(r.store, tasks)
    ensures (exists j :: 0 <= j < |tasks| && tasks[j].Id == id) ==>
      exists i :: && 0 <= i < |tasks| && r.result == Ok(tasks[i])
                  && (forall j :: 0 <= j < i ==> tasks[j].Id != id)
                  && r.store == tasks[..i] + tasks[i + 1..]
  {
    match FirstIndex(tasks, IdOf, id)
    case None => Reply(tasks, Err(NotFound(id)))
    case Some(i) =>
      RemoveAtSubsequence(tasks, i);
      Reply(RemoveAt(tasks, i), Ok(tasks[i]))
  }

  /** `getByColumn`: the tasks whose `column` is `columnId`, in stored order. */
  function GetByColumn(tasks: seq<Task>, columnId: string): (r: seq<Task>)
    ensures forall t :: t in r <==> t in tasks && t.content.column == columnId
    ensures IsSubsequence(r, tasks)
    ensures forall t :: multiset(r)[t] == if t.content.column == columnId then multiset(tasks)[t] else 0
  {
    Filter(tasks, (t: Task) => t.content.column == columnId)
  }

  /** A payload that mentions no field leaves the content as it is. */
  lemma MergeNoChange(c: TaskContent)
    ensures Merge(c, NoChange) == c
  {
  }

  /** Merging the same payload twice is merging it once. */
  lemma MergeIdempotent(c: TaskContent, p: TaskPatch)
    ensures Merge(Merge(c, p), p) == Merge(c, p)
  {
  }

  /** A whole record as payload overwrites every content field. */
  lemma MergeWholeTask(c: TaskContent, t: Task)
    ensures Merge(c, WholeTask(t)) == t.content
  {
  }

  /** Three creates on an empty store allocate the ids 1, 2 and 3 in order. */
  lemma ThreeCreatesFromEmpty(d1: TaskDraft, d2: TaskDraft, d3: TaskDraft, n1: Stamp, n2: Stamp, n3: Stamp)
    requires d1.Id.None? && d2.Id.None? && d3.Id.None?
    ensures var (s1, t1) := Create([], d1, n1);
            var (s2, t2) := Create(s1, d2, n2);
            var (s3, t3) := Create(s2, d3, n3);
            t1.Id == 1 && t2.Id == 2 && t3.Id == 3 && s3 == [t1, t2, t3]
  {
    var (s1, t1) := Create([], d1, n1);
    assert IdsOf(s1) == [1];
    assert Ids.NextId([1]) == 2;
    var (s2, t2) := Create(s1, d2, n2);
    assert IdsOf(s2) == [1, 2];
    assert Ids.NextId([1, 2]) == 3;
  }

  /** Update never changes which ids the store holds, nor their order. */
  lemma UpdateKeepsIds(tasks: seq<Task>, id: int, p: TaskPatch, now: Stamp)
    ensures IdsOf(Update(tasks, id, p, now).store) == IdsOf(tasks)
  {
  }

  /** Deleting the record a create just added gives the old store back and
      returns that record. */
  lemma DeleteUndoesCreate(tasks: seq<Task>, d: TaskDraft, now: Stamp)
    requires d.Id.None?
    ensures var (s, t) := Create(tasks, d, now);
            Delete(s, t.Id) == Reply(tasks, Ok(t))
  {
    var (s, t) := Create(tasks, d, now);
    assert IdOf(s[|tasks|]) == t.Id;
    assert FirstIndex(s, IdOf, t.Id) == Some(|tasks|);
    assert RemoveAt(s, |tasks|) == tasks;
  }

  /** A created record is what `getById` then finds under its id. */
  lemma CreatedIsFound(tasks: seq<Task>, d: TaskDraft, now: Stamp)
    requires d.Id.None?
    ensures var (s, t) := Create(tasks, d, now);
            GetById(s, t.Id) == Ok(t)
  {
    var (s, t) := Create(tasks, d, now);
    assert IdOf(s[|tasks|]) == t.Id;
    assert FirstIndex(s, IdOf, t.Id) == Some(|tasks|);
  }

  /** Repeating an update with the same payload and stamp changes nothing
      more: the record it finds the second time is the one it wrote. */
  lemma UpdateIdempotent(tasks: seq<Task>, id: int, p: TaskPatch, now: Stamp)
    ensures var r := Update(tasks, id, p, now);
            Update(r.store, id, p, now) == r
  {
    var s := Update(tasks, id, p, now).store;
    assert forall j :: 0 <= j < |s| ==> IdOf(s[j]) == IdOf(tasks[j]);
    assert FirstIndex(s, IdOf, id) == FirstIndex(tasks, IdOf, id);
    match FirstIndex(tasks, IdOf, id) {
      case None =>
      case Some(i) => MergeIdempotent(tasks[i].content, p);
    }
  }

}
