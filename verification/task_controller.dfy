/** The REST controller for /tasks. A request body is checked against the
    Task constraints before the handler method runs; a rejected body never
    reaches the service. Service failures go through the exception handler.
    Each endpoint answers success with a fixed status code and message. */
module TaskController {
  import opened Wrappers
  import opened Decimal
  import opened Tasks
  import opened Validation
  import opened TaskStore
  import opened ApiResponses
  import opened ErrorResponses
  import opened Exceptions
  import opened ExceptionHandler
  import Service = TaskService

  const Ok := 200
  const Created := 201

  /** What a success envelope can carry. */
  datatype Payload = TaskList(tasks: seq<Task>) | OneTask(task: Task)

  /** A reply body: the success envelope or the error body. */
  datatype Body = Envelope(envelope: ApiResponse<Payload>) | Problem(problem: ErrorResponse)

  datatype Response = Response(code: int, body: Body)

  /** A response together with the store the request leaves behind. */
  datatype Exchange = Exchange(response: Response, store: Store)

  /** A reply built by the exception handler. */
  function Fail(f: Failure, s: Store): (x: Exchange)
    ensures x.store == s && x.response.body.Problem?
    ensures x.response.code == Handle(f).code && x.response.body.problem == Handle(f).body
  {
    var reply := Handle(f);
    Exchange(Response(reply.code, Problem(reply.body)), s)
  }

  /** A success reply with the endpoint's code, message and data. */
  function Succeed(code: int, message: string, data: Option<Payload>, s: Store): Exchange {
    Exchange(Response(code, Envelope(SuccessWith(message, data))), s)
  }

  /** The reply to a body that breaks a constraint: the handler's reply to
      the resulting MethodArgumentNotValidException. */
  function Reject(body: Task, s: Store): (x: Exchange)
    requires !IsValid(body)
    ensures x.store == s && x.response.code == 400 && x.response.body.Problem?
    ensures x.response.body.problem.message == Some("Validation failed")
  {
    Fail(ArgumentNotValid(ValidationErrors(body)), s)
  }

  /** GET /tasks. */
  function GetAllTasks(s: Store): (x: Exchange)
    ensures x.store == s && x.response.code == 200
    ensures x.response.body == Envelope(ApiResponse(
      Some("success"), Some("Tasks retrieved successfully"),
      Some(TaskList(Service.GetAllTasks(s).result.value))))
  {
    var step := Service.GetAllTasks(s);
    Succeed(Ok, "Tasks retrieved successfully", Some(TaskList(step.result.value)), step.store)
  }

  /** GET /tasks/{id}. */
  function GetTaskById(s: Store, id: int): (x: Exchange)
    ensures x.store == s
    ensures id in s.tasks ==>
      && x.response.code == 200
      && x.response.body == Envelope(ApiResponse(
           Some("success"), Some("Task retrieved successfully"), Some(OneTask(s.tasks[id]))))
    ensures id !in s.tasks ==>
      && x.response.code == 404
      && x.response.body == Problem(ErrorResponse(
           Some("error"), Some("Task not found with id: " + LongToString(id)), None))
  {
    var step := Service.GetTaskById(s, id);
    match step.result
    case Success(task) => Succeed(Ok, "Task retrieved successfully", Some(OneTask(task)), step.store)
    case Failure(f) => Fail(f, step.store)
  }

  /** POST /tasks. A valid body is saved under one id k: a body carrying a
      stored id replaces that entry with the body itself, and any other body
      is added under an id no stored task had, so the table grows by one. */
  function CreateTask(s: Store, body: Task): (x: Exchange)
    ensures !IsValid(body) ==> x.store == s && x.response.code == 400
    ensures IsValid(body) ==>
      && x.response.code == 201
      && x.response.body == Envelope(ApiResponse(Some("success"), Some("Task created successfully"), None))
      && exists k :: && k in x.store.tasks && SameDetails(x.store.tasks[k], body)
                     && x.store.tasks == s.tasks[k := x.store.tasks[k]]
                     && (body.id.Some? && body.id.value in s.tasks ==>
                           k == body.id.value && x.store.tasks[k] == body)
                     && (!(body.id.Some? && body.id.value in s.tasks) ==>
                           k !in s.tasks && |x.store.tasks| == |s.tasks| + 1)
  {
    if !IsValid(body) then Reject(body, s)
    else
      var step := Service.CreateTask(s, body);
      var k := step.result.value.id.value;
      assert k in step.store.tasks && SameDetails(step.store.tasks[k], body);
      assert !(body.id.Some? && body.id.value in s.tasks) ==>
        step.store.tasks.Keys == s.tasks.Keys + {k};
      Succeed(Created, "Task created successfully", None, step.store)
  }

  /** PUT /tasks/{id}. The body is checked first, so a bad body is refused
      with 400 even when the id is absent. */
  function UpdateTask(s: Store, id: int, body: Task): (x: Exchange)
    ensures !IsValid(body) ==> x.store == s && x.response.code == 400
    ensures IsValid(body) && id !in s.tasks ==>
      && x.store == s && x.response.code == 404
      && x.response.body == Problem(ErrorResponse(
           Some("error"), Some("Task not found with id: " + LongToString(id)), None))
    ensures IsValid(body) && id in s.tasks ==>
      && x.response.code == 200
      && x.response.body == Envelope(ApiResponse(Some("success"), Some("Task updated successfully"), None))
      && id in x.store.tasks && x.store.tasks[id].id == Some(id) && SameDetails(x.store.tasks[id], body)
      && x.store.tasks == s.tasks[id := x.store.tasks[id]]
  {
    if !IsValid(body) then Reject(body, s)
    else
      var step := Service.UpdateTask(s, id, body);
      match step.result
      case Success(_) => Succeed(Ok, "Task updated successfully", None, step.store)
      case Failure(f) => Fail(f, step.store)
  }

  /** DELETE /tasks/{id}. */
  function DeleteTask(s: Store, id: int): (x: Exchange)
    ensures id in s.tasks ==>
      && x.response.code == 200
      && x.response.body == Envelope(ApiResponse(Some("success"), Some("Task deleted successfully"), None))
      && x.store.tasks == s.tasks - {id}
    ensures id !in s.tasks ==>
      && x.store == s && x.response.code == 404
      && x.response.body == Problem(ErrorResponse(
           Some("error"), Some("Task not found with id: " + LongToString(id)), None))
  {
    var step := Service.DeleteTask(s, id);
    match step.result
    case Success(_) => Succeed(Ok, "Task deleted successfully", None, step.store)
    case Failure(f) => Fail(f, step.store)
  }

  /** The five routes of /tasks. */
  datatype Request =
    | ListAll
    | Fetch(id: int)
    | Post(body: Task)
    | Put(id: int, body: Task)
    | Remove(id: int)

  /** Route a request to its endpoint. Reads leave the store alone; 201
      answers exactly a valid POST, 400 exactly a POST or PUT with an invalid
      body, and 404 only an addressed id that is not stored, with the store
      untouched. */
  function Dispatch(s: Store, req: Request): (x: Exchange)
    ensures req.ListAll? || req.Fetch? ==> x.store == s
    ensures x.response.code == 201 <==> req.Post? && IsValid(req.body)
    ensures x.response.code == 400 <==> (req.Post? || req.Put?) && !IsValid(req.body)
    ensures x.response.code == 404 ==>
      && x.store == s
      && (req.Fetch? || req.Put? || req.Remove?) && req.id !in s.tasks
  {
    match req
    case ListAll => GetAllTasks(s)
    case Fetch(id) => GetTaskById(s, id)
    case Post(body) => CreateTask(s, body)
    case Put(id, body) => UpdateTask(s, id, body)
    case Remove(id) => DeleteTask(s, id)
  }

  /** Across all routes: an error reply comes with the store untouched and
      an error envelope; a success reply has a 2xx code and a success
      envelope; and only the two listing routes ever carry data. */
  lemma ReplyShape(s: Store, req: Request)
    ensures var x := Dispatch(s, req);
      && x.response.code in {200, 201, 400, 404}
      && (x.response.code >= 400 <==> x.response.body.Problem?)
      && (x.response.body.Problem? ==> x.store == s && x.response.body.problem.status == Some("error"))
      && (x.response.body.Envelope? ==> x.response.body.envelope.status == Some("success"))
      && (x.response.body.Envelope? && x.response.body.envelope.data.Some? ==> req.ListAll? || req.Fetch?)
  {
  }

  /** Every stored task satisfies the Task constraints. */
  predicate AllValid(s: Store) {
    forall id :: id in s.tasks ==> IsValid(s.tasks[id])
  }

  /** Through the controller only a body that passed validation is saved,
      so a store whose tasks all satisfy the constraints keeps that
      property on every route. */
  lemma DispatchKeepsValid(s: Store, req: Request)
    requires AllValid(s)
    ensures AllValid(Dispatch(s, req).store)
  {
  }

  /** A rejected body lists one "field: message" entry per violated
      constraint, and POST and PUT agree on it. */
  lemma RejectedBodyReply(s: Store, id: int, body: Task)
    requires !IsValid(body)
    ensures var x := CreateTask(s, body);
      && x == UpdateTask(s, id, body)
      && x.response.body.Problem?
      && x.response.body.problem.errors.Some?
      && (forall c :: c in Violations(body) ==>
            FormatFieldError(Report(c)) in x.response.body.problem.errors.value)
      && (forall e :: e in x.response.body.problem.errors.value ==>
            exists c :: c in Violations(body) && e == FormatFieldError(Report(c)))
  {
    RejectedBodyErrors(body);
  }

  /** POST of the two-character title "AB": 400, the errors list is
      exactly the title size line, and the store is untouched. */
  lemma ShortTitleScenario(s: Store)
    ensures var x := CreateTask(s, TaskOf(Some("AB"), Some("Description"), false));
      && x.store == s && x.response.code == 400 && x.response.body.Problem?
      && x.response.body.problem.errors == Some(["title: " + TitleSizeMessage])
  {
    var body := TaskOf(Some("AB"), Some("Description"), false);
    ShortTitleRejected();
    ShortTitleLine();
    assert CreateTask(s, body) == Reject(body, s);
  }

  /** The errors list the handler prints for the short title. */
  lemma ShortTitleLine()
    ensures FormatFieldErrors([Report(TitleSize)]) == ["title: " + TitleSizeMessage]
  {
    assert "title" + ": " == "title: ";
    var r := FormatFieldErrors([Report(TitleSize)]);
    assert |r| == 1 && r[0] == "title: " + TitleSizeMessage;
  }

  /** GET /tasks/999 on an empty store: 404 with the id in the message. */
  lemma MissingIdScenario()
    ensures GetTaskById(EmptyStore(), 999).response ==
      Response(404, Problem(ErrorResponse(Some("error"), Some("Task not found with id: 999"), None)))
  {
    assert NatToString(9) == "9";
    assert NatToString(99) == "99";
    assert NatToString(999) == "999";
    assert LongToString(999) == "999";
    assert 999 !in EmptyStore().tasks;
    var m := "Task not found with id: " + LongToString(999);
    assert m == "Task not found with id: 999";
    var x := GetTaskById(EmptyStore(), 999);
    assert x.response.code == 404;
    assert x.response.body == Problem(ErrorResponse(Some("error"), Some(m), None));
  }
}
