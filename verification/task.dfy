/** The Task entity: a numeric id assigned by the store, a title, an
    optional description and a completion flag. Every reference field may be
    null in a request body, so each is an Option. */
module Tasks {
  import opened Wrappers

  datatype Task = Task(
    id: Option<int>,
    title: Option<string>,
    description: Option<string>,
    completed: bool)

  /** The three fields an update overwrites. */
  predicate SameDetails(a: Task, b: Task) {
    a.title == b.title && a.description == b.description && a.completed == b.completed
  }

  /** The no-argument constructor: every reference field null, completed false. */
  function NewTask(): (t: Task)
    ensures t.id.None? && t.title.None? && t.description.None?
    ensures !t.completed
  {
    Task(None, None, None, false)
  }

  /** The (title, description, completed) constructor; the id stays unset. */
  function TaskOf(title: Option<string>, description: Option<string>, completed: bool): (t: Task)
    ensures t.id.None?
    ensures t.title == title && t.description == description && t.completed == completed
  {
    Task(None, title, description, completed)
  }

  /** setTitle, setDescription and setCompleted applied to target with the
      values of details: the id of target survives, the details replace the
      rest. */
  function CopyDetails(target: Task, details: Task): (t: Task)
    ensures t.id == target.id
    ensures SameDetails(t, details)
  {
    target.(title := details.title, description := details.description, completed := details.completed)
  }
}
