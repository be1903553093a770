/** The task service: list, get, create, update and delete over the store.
    Every id-addressed operation first looks the id up and fails with
    ResourceNotFound("Task", id) when it is absent, before touching the
    store. Each operation returns its outcome together with the store it
    leaves behind. */
module TaskService {
  import opened Wrappers
  import opened Decimal
  import opened Tasks
  import opened TaskStore
  import opened Exceptions

  const TaskResource := "Task"

  /** An outcome and the resulting store. */
  datatype Step<T> = Step(result: Result<T, Failure>, store: Store)

  /** The failure an absent id produces. */
  function TaskNotFound(id: int): (f: Failure)
    ensures f == ResourceNotFound("Task not found with id: " + LongToString(id))
  {
    assert TaskResource + NotFoundInfix == "Task not found with id: ";
    NotFound(TaskResource, id)
  }

  /** getAllTasks: every stored task, in ascending id order; the store is
      not changed. */
  function GetAllTasks(s: Store): (r: Step<seq<Task>>)
    ensures r.store == s && r.result.Success?
    ensures |r.result.value| == |s.tasks|
    ensures forall i :: 0 <= i < |r.result.value| ==> r.result.value[i] in s.tasks.Values
    ensures forall id :: id in s.tasks ==> s.tasks[id] in r.result.value
    ensures forall i, j :: 0 <= i < j < |r.result.value| ==>
      r.result.value[i].id.Some? && r.result.value[j].id.Some? &&
      r.result.value[i].id.value < r.result.value[j].id.value
  {
    var all := FindAll(s);
    assert forall i :: 0 <= i < |all| ==> all[i] in s.tasks.Values by {
      forall i | 0 <= i < |all| ensures all[i] in s.tasks.Values {
        assert s.tasks[all[i].id.value] == all[i];
      }
    }
    Step(Success(all), s)
  }

  /** findById(id).orElseThrow(...): the lookup each id-addressed operation
      starts with. */
  function Lookup(s: Store, id: int): (r: Result<Task, Failure>)
    ensures r.Success? <==> id in s.tasks
    ensures r.Success? ==> r.value == s.tasks[id]
    ensures r.Failure? ==> r.error == TaskNotFound(id)
  {
    match FindById(s, id)
    case Some(t) => Success(t)
    case None => Failure(TaskNotFound(id))
  }

  /** getTaskById. */
  function GetTaskById(s: Store, id: int): (r: Step<Task>)
    ensures r.store == s
    ensures id in s.tasks ==> r.result == Success(s.tasks[id]) && s.tasks[id].id == Some(id)
    ensures id !in s.tasks ==>
      r.result == Failure(ResourceNotFound("Task not found with id: " + LongToString(id)))
  {
    Step(Lookup(s, id), s)
  }

  /** createTask: the task is saved and the saved copy returned. save
      upserts: a task whose id is stored replaces that entry unchanged, and
      any other task, with no id or an id not stored, gets one no stored task
      has. */
  function CreateTask(s: Store, t: Task): (r: Step<Task>)
    ensures r.result.Success? && r.result.value.id.Some?
    ensures SameDetails(r.result.value, t)
    ensures r.store.tasks == s.tasks[r.result.value.id.value := r.result.value]
    ensures t.id.Some? && t.id.value in s.tasks ==> r.result.value == t
    ensures !(t.id.Some? && t.id.value in s.tasks) ==> r.result.value.id.value !in s.tasks
  {
    var (saved, s') := Save(s, t);
    Step(Success(saved), s')
  }

  /** updateTask: the stored task keeps its id and takes title, description
      and completed from details, all three, whatever their values. */
  function UpdateTask(s: Store, id: int, details: Task): (r: Step<Task>)
    ensures id !in s.tasks ==> r.result == Failure(TaskNotFound(id)) && r.store == s
    ensures id in s.tasks ==>
      && r.result.Success?
      && r.result.value.id == Some(id)
      && SameDetails(r.result.value, details)
      && r.store.tasks == s.tasks[id := r.result.value]
  {
    match Lookup(s, id)
    case Failure(e) => Step(Failure(e), s)
    case Success(task) =>
      var (saved, s') := Save(s, CopyDetails(task, details));
      Step(Success(saved), s')
  }

  /** deleteTask. */
  function DeleteTask(s: Store, id: int): (r: Step<()>)
    ensures id !in s.tasks ==> r.result == Failure(TaskNotFound(id)) && r.store == s
    ensures id in s.tasks ==> r.result == Success(()) && r.store.tasks == s.tasks - {id}
  {
    match Lookup(s, id)
    case Failure(e) => Step(Failure(e), s)
    case Success(task) => Step(Success(()), Delete(s, id))
  }

  /** For an absent id, get, update and delete all fail with the same
      not-found failure and leave the store as it was. */
  lemma AbsentIdNotFound(s: Store, id: int, details: Task)
    requires id !in s.tasks
    ensures GetTaskById(s, id) == Step(Failure(TaskNotFound(id)), s)
    ensures UpdateTask(s, id, details) == Step(Failure(TaskNotFound(id)), s)
    ensures DeleteTask(s, id) == Step(Failure(TaskNotFound(id)), s)
  {
  }

  /** Creating a task and fetching it by the returned id gives back its
      title, description and completed. */
  lemma CreateThenGet(s: Store, t: Task)
    ensures var c := CreateTask(s, t);
      var g := GetTaskById(c.store, c.result.value.id.value);
      g.result.Success? && g.result.value == c.result.value && SameDetails(g.result.value, t)
  {
  }

  /** Fetching after an update shows the new details under the same id. */
  lemma UpdateThenGet(s: Store, id: int, details: Task)
    requires id in s.tasks
    ensures var g := GetTaskById(UpdateTask(s, id, details).store, id);
      g.result.Success? && g.result.value.id == Some(id) && SameDetails(g.result.value, details)
  {
  }

  /** After a delete the id is not found, and deleting it again fails rather
      than succeeding silently. */
  lemma DeleteThenNotFound(s: Store, id: int)
    requires id in s.tasks
    ensures var d := DeleteTask(s, id);
      && GetTaskById(d.store, id).result == Failure(TaskNotFound(id))
      && DeleteTask(d.store, id) == Step(Failure(TaskNotFound(id)), d.store)
  {
  }

  /** Create, update and delete touch only the id they address: any other
      id reads back exactly as before. */
  lemma OthersUnchanged(s: Store, id: int, other: int, t: Task)
    requires other != id
    ensures GetTaskById(UpdateTask(s, id, t).store, other).result == GetTaskById(s, other).result
    ensures GetTaskById(DeleteTask(s, id).store, other).result == GetTaskById(s, other).result
    ensures var c := CreateTask(s, t);
      other != c.result.value.id.value ==>
        GetTaskById(c.store, other).result == GetTaskById(s, other).result
  {
  }

  /** Creating a task without an id adds exactly one task to the list. */
  lemma CreateGrowsList(s: Store, t: Task)
    requires t.id.None?
    ensures |GetAllTasks(CreateTask(s, t).store).result.value| == |GetAllTasks(s).result.value| + 1
  {
  }

  /** Creating a task that carries a stored id replaces that entry: the list
      keeps its length and the id now reads back as the given task. */
  lemma CreateWithStoredIdReplaces(s: Store, t: Task)
    requires t.id.Some? && t.id.value in s.tasks
    ensures var c := CreateTask(s, t);
      && c.result == Success(t)
      && GetTaskById(c.store, t.id.value).result == Success(t)
      && |GetAllTasks(c.store).result.value| == |GetAllTasks(s).result.value|
  {
  }

  /** Deleting a stored task removes exactly one task from the list. */
  lemma DeleteShrinksList(s: Store, id: int)
    requires id in s.tasks
    ensures |GetAllTasks(DeleteTask(s, id).store).result.value| == |GetAllTasks(s).result.value| - 1
  {
  }
}
