# Task manager: a Dafny model of the service, validation and reply layers

The task manager is a small REST service over one entity, the Task: an id
assigned by the store, a title, an optional description and a completion
flag. This project models the logic under its framework annotations:

- the **task service** (list, get, create, update, delete). It runs over an
  abstract store. The store is a map from id to task, with identity-style id
  assignment and a well-formedness invariant carried by the `Store` type;
- the **Bean Validation constraints** on Task, as a function from a
  candidate task to the set of constraints it violates. `@NotBlank` trims
  the title and requires something left. `@Size` bounds the length and
  accepts null;
- the **exception handler**, a total function from failure kind to HTTP
  status and error body. This includes the `"<field>: <message>"` lines for a
  rejected request body;
- the **response envelopes** `ApiResponse` and `ErrorResponse`, and the
  `TaskValidationException` record. A field that may be null is an
  `Option`. `ApiResponse` is serialised with NON_NULL inclusion, so its
  absent fields are left out of the JSON object. `ErrorResponse` has no such
  annotation, so an absent field there is written as `null`;
- the **controller**. It checks the body first, then calls the service, then
  wraps the outcome in the endpoint's fixed code and message. Any failure
  goes through the handler;
- the **.env key conversion** to Spring property names, and the properties
  that setting each entry in turn produces.

Every operation is a pure function. A service call returns its outcome
together with the store it leaves behind, so "a failure leaves the store as
it was" and "only the addressed id changes" are ordinary postconditions.

`@Size` measures the raw string and only `@NotBlank` trims, so `"  a "`
(length 4) passes both title constraints.

## Model

| member | source | states |
|---|---|---|
| Tasks.NewTask | src/main/java/com/example/taskmanager/model/Task.java:27-30 | the no-argument Task has no id, title or description, and completed is false |
| Tasks.TaskOf | src/main/java/com/example/taskmanager/model/Task.java:39-43 | the three-argument Task carries the given title, description and completed, and its id is unset |
| Tasks.CopyDetails | src/main/java/com/example/taskmanager/service/TaskService.java:48-50 | after the three setters the target keeps its id and has exactly the details' title, description and completed |
| Validation.Report | src/main/java/com/example/taskmanager/model/Task.java:20-24 | the description constraint is reported on field "description" with "Description must not exceed 500 characters"; both title constraints on field "title", the blank check with "Title is required" and the size check with "Title must be between 3 and 100 characters" |
| Validation.Trim | src/main/java/com/example/taskmanager/model/Task.java:20 | String.trim as @NotBlank applies it: the result is a slice of the input with only characters at most U+0020 outside it; it is empty exactly when every character is at most U+0020, and otherwise starts and ends with a character above U+0020 |
| Validation.Violations | src/main/java/com/example/taskmanager/model/Task.java:20-25 | "Title is required" is violated iff the title is null or all characters are at most U+0020; the size constraint iff the title is non-null with length below 3 or above 100; the description constraint iff the description is non-null and longer than 500 |
| Validation.ValidIff | src/main/java/com/example/taskmanager/model/Task.java:20-25 | a task has no violation iff its title is present, has a character above U+0020 and is 3 to 100 long, and its description is null or at most 500 long |
| Validation.ViolationList | src/main/java/com/example/taskmanager/model/Task.java:20-25 | lists each violated constraint exactly once and nothing else |
| Validation.ValidationErrors | src/main/java/com/example/taskmanager/exception/GlobalExceptionHandler.java:46-48 | the binding result's field errors: one report per violated constraint, no duplicates, and only reports of violated constraints |
| Validation.ShortTitleRejected | src/test/java/com/example/taskmanager/controller/TaskControllerTest.java:124-131 | the title "AB" with a short description violates only the title size constraint, reported once |
| Validation.EmptyTitleRejected | src/test/java/com/example/taskmanager/controller/TaskControllerTest.java:137-145 | an empty title violates both "Title is required" and the size constraint |
| Validation.SameDetailsValid | src/main/java/com/example/taskmanager/model/Task.java:20-25 | the constraints read only title and description, so two tasks with the same details are both valid or both invalid |
| Validation.CompletedUnconstrained | src/main/java/com/example/taskmanager/model/Task.java:27 | the completed flag never affects which constraints are violated |
| Decimal.NatToString | src/test/java/com/example/taskmanager/exception/ResourceNotFoundExceptionTest.java:21-30 | the id's digits are all decimal digits, at least one, with a leading zero only for 0 |
| Decimal.ParseLongOfLongToString | src/test/java/com/example/taskmanager/exception/ResourceNotFoundExceptionTest.java:21-30 | parsing the rendered id gives the id back, for negative ids too |
| Decimal.LongToString | src/test/java/com/example/taskmanager/exception/ResourceNotFoundExceptionTest.java:21-30 | the rendered id is non-empty and starts with '-' exactly when the id is negative |
| Decimal.LongToStringInjective | src/test/java/com/example/taskmanager/exception/ResourceNotFoundExceptionTest.java:21-30 | distinct ids render as distinct strings |
| Exceptions.NotFoundMessageNamesId | src/test/java/com/example/taskmanager/exception/ResourceNotFoundExceptionTest.java:21-31 | the not-found message determines the id: equal messages for one resource mean equal ids |
| Exceptions.NotFound | src/test/java/com/example/taskmanager/exception/ResourceNotFoundExceptionTest.java:21-31 | ResourceNotFoundException(resource, id) is a not-found failure whose message is resource, " not found with id: ", then the id |
| Exceptions.OfMessage | src/main/java/com/example/taskmanager/exception/TaskValidationException.java:17-21 | the single-message exception has that message and the errors list is exactly [message] |
| Exceptions.OfMessageAndErrors | src/main/java/com/example/taskmanager/exception/TaskValidationException.java:23-26 | message and errors are kept unchanged |
| Exceptions.OfErrors | src/main/java/com/example/taskmanager/exception/TaskValidationException.java:28-31 | the errors-only exception has the default message "Validation failed" and the given list |
| Exceptions.SetErrors | src/main/java/com/example/taskmanager/exception/TaskValidationException.java:37-39 | setErrors replaces the list and leaves the message unchanged |
| Exceptions.ConstructorsAgree | src/main/java/com/example/taskmanager/exception/TaskValidationException.java:17-31 | the errors-only constructor is the two-argument one with "Validation failed"; setErrors on a single-message exception gives the two-argument one |
| ErrorResponses.Empty | src/main/java/com/example/taskmanager/dto/ErrorResponse.java:18-20 | the default error body has no status, message or errors |
| ErrorResponses.WithMessage | src/main/java/com/example/taskmanager/dto/ErrorResponse.java:40-44 | status "error", the given message, errors absent |
| ErrorResponses.WithErrors | src/main/java/com/example/taskmanager/dto/ErrorResponse.java:28-33 | status "error", the given message, and the errors list present with the same elements in the same order, so an empty list stays empty rather than absent |
| ErrorResponses.SetStatus | src/main/java/com/example/taskmanager/dto/ErrorResponse.java:51-53 | only status changes |
| ErrorResponses.SetMessage | src/main/java/com/example/taskmanager/dto/ErrorResponse.java:59-61 | only message changes |
| ErrorResponses.SetErrors | src/main/java/com/example/taskmanager/dto/ErrorResponse.java:67-69 | only errors changes |
| ErrorResponses.ConstructorsAreSetters | src/main/java/com/example/taskmanager/dto/ErrorResponse.java:18-44 | each message constructor equals the default one followed by the setters; the two differ only in errors |
| ApiResponses.EmittedKeys | src/main/java/com/example/taskmanager/dto/ApiResponse.java:10 | under NON_NULL a key is emitted exactly when its field is non-null, and no other key is emitted |
| ApiResponses.Empty | src/main/java/com/example/taskmanager/dto/ApiResponse.java:16-17 | the default envelope emits no key at all |
| ApiResponses.WithStatus | src/main/java/com/example/taskmanager/dto/ApiResponse.java:25-28 | status and message as given, data absent and not emitted |
| ApiResponses.WithData | src/main/java/com/example/taskmanager/dto/ApiResponse.java:37-41 | status, message and data as given; "data" is emitted only for non-null data |
| ApiResponses.Success | src/main/java/com/example/taskmanager/dto/ApiResponse.java:43-45 | status "success", the message, and only the status and message keys emitted |
| ApiResponses.SuccessWith | src/main/java/com/example/taskmanager/dto/ApiResponse.java:47-49 | status "success", the message and the data; null data leaves "data" out of the object |
| ApiResponses.Error | src/main/java/com/example/taskmanager/dto/ApiResponse.java:51-53 | status "error", the message, data absent |
| ApiResponses.SetStatus | src/main/java/com/example/taskmanager/dto/ApiResponse.java:60-62 | only status changes |
| ApiResponses.SetMessage | src/main/java/com/example/taskmanager/dto/ApiResponse.java:68-70 | only message changes |
| ApiResponses.SetData | src/main/java/com/example/taskmanager/dto/ApiResponse.java:76-78 | only data changes |
| ApiResponses.SettersCommute | src/main/java/com/example/taskmanager/dto/ApiResponse.java:60-78 | setting a field to its own value is a no-op, the setters commute, and three setters on the default envelope give exactly the values set |
| ExceptionHandler.FormatFieldErrors | src/main/java/com/example/taskmanager/exception/GlobalExceptionHandler.java:45-50 | one entry per field error, in order, each the field name, ": ", then the message |
| ExceptionHandler.Handle | src/main/java/com/example/taskmanager/exception/GlobalExceptionHandler.java:21-68 | not-found gives 404 with its message and no errors; TaskValidationException gives 400 with message and errors passed through; a rejected body gives 400, "Validation failed" and one "field: message" per field error; anything else gives 500 with "An unexpected error occurred: " and the message, where a null message prints as "null"; every body has status "error" |
| ExceptionHandler.RejectedBodyErrors | src/main/java/com/example/taskmanager/exception/GlobalExceptionHandler.java:42-53 | for a rejected body the errors list holds the "field: message" line of every violated constraint and no other line |
| ExceptionHandler.SingleMessageValidation | src/main/java/com/example/taskmanager/exception/GlobalExceptionHandler.java:28-33 | a single-message TaskValidationException becomes 400 with that message and the one-element list [message] |
| TaskStore.FindAll | src/main/java/com/example/taskmanager/service/TaskService.java:25 | every stored task exactly once, each under its own id, in ascending id order |
| TaskStore.FindById | src/main/java/com/example/taskmanager/service/TaskService.java:29 | present exactly when the id is stored, and then the stored task, whose id is that id |
| TaskStore.Save | src/main/java/com/example/taskmanager/service/TaskService.java:33-35 | the saved task has an id and the input's details and is stored under that id; a task whose id is stored overwrites it; any other task gets an id no stored task has |
| TaskStore.Delete | src/main/java/com/example/taskmanager/service/TaskService.java:63 | the store afterwards is the store without that id |
| TaskStore.RemoveIdIncreasing | src/main/java/com/example/taskmanager/service/TaskService.java:63 | removing an id keeps the table order ascending and shortens it by one when the id occurs |
| TaskService.TaskNotFound | src/main/java/com/example/taskmanager/service/TaskService.java:30 | the failure for an absent id has the message "Task not found with id: " followed by the id |
| TaskService.Lookup | src/main/java/com/example/taskmanager/service/TaskService.java:29-30 | succeeds exactly when the id is stored, with the stored task; otherwise fails with the not-found failure for that id |
| TaskService.GetAllTasks | src/main/java/com/example/taskmanager/service/TaskService.java:24-26 | never fails and leaves the store unchanged; the list has one entry per stored task, holds every stored task and nothing else, in ascending id order |
| TaskService.GetTaskById | src/main/java/com/example/taskmanager/service/TaskService.java:28-31 | leaves the store unchanged; a stored id gives its task, which carries that id; an absent id fails with "Task not found with id: <id>" |
| TaskService.CreateTask | src/main/java/com/example/taskmanager/service/TaskService.java:33-35 | always succeeds in the model, since the store's own entity validation is not modelled; the saved task has an id and the input's title, description and completed, and is stored under it with no other entry changed; a task whose id is stored replaces that entry and is returned unchanged; any other task, with no id or an unstored one, gets an id no stored task has |
| TaskService.UpdateTask | src/main/java/com/example/taskmanager/service/TaskService.java:44-53 | an absent id fails with not-found and no save; a stored id keeps its id, takes all three details whatever their values, and no other entry changes |
| TaskService.DeleteTask | src/main/java/com/example/taskmanager/service/TaskService.java:60-64 | an absent id fails with not-found and no delete; a stored id is removed and no other entry changes |
| TaskService.AbsentIdNotFound | src/main/java/com/example/taskmanager/service/TaskService.java:28-64 | for an absent id, get, update and delete all fail with the same not-found failure and leave the store as it was |
| TaskService.CreateThenGet | src/main/java/com/example/taskmanager/service/TaskService.java:28-35 | fetching a created task by its returned id gives the saved task, with the input's details |
| TaskService.UpdateThenGet | src/main/java/com/example/taskmanager/service/TaskService.java:44-53 | after an update, fetching the id gives the new details under the same id |
| TaskService.DeleteThenNotFound | src/main/java/com/example/taskmanager/service/TaskService.java:60-64 | after a delete the id is not found, and a second delete fails instead of succeeding |
| TaskService.OthersUnchanged | src/main/java/com/example/taskmanager/service/TaskService.java:33-64 | create, update and delete leave every other id reading back exactly as before |
| TaskService.CreateGrowsList | src/main/java/com/example/taskmanager/service/TaskService.java:24-35 | creating a task without an id lengthens the list by one |
| TaskService.CreateWithStoredIdReplaces | src/main/java/com/example/taskmanager/service/TaskService.java:24-35 | creating a task that carries a stored id returns it unchanged, the id then reads back as that task, and the list keeps its length |
| TaskService.DeleteShrinksList | src/main/java/com/example/taskmanager/service/TaskService.java:24-64 | deleting a stored task shortens the list by one |
| TaskController.Fail | src/main/java/com/example/taskmanager/exception/GlobalExceptionHandler.java:18-19 | a failure's reply is the handler's code and body, with the store untouched |
| TaskController.Reject | src/main/java/com/example/taskmanager/controller/TaskController.java:40 | a body that breaks a constraint gets 400 and "Validation failed", and the service is never reached, so the store is untouched |
| TaskController.GetAllTasks | src/main/java/com/example/taskmanager/controller/TaskController.java:25-30 | 200, "success", "Tasks retrieved successfully", data the service's list, store unchanged |
| TaskController.GetTaskById | src/main/java/com/example/taskmanager/controller/TaskController.java:32-37 | a stored id gives 200, "Task retrieved successfully" and the task; an absent id gives 404 with the not-found message and no errors list |
| TaskController.CreateTask | src/main/java/com/example/taskmanager/controller/TaskController.java:39-44 | an invalid body gives 400 with the store untouched; a valid one gives 201, "Task created successfully", no data, and changes exactly one entry, which has the body's details: a body carrying a stored id replaces that entry with the body itself, and any other body is added under a new id, so the table grows by one |
| TaskController.UpdateTask | src/main/java/com/example/taskmanager/controller/TaskController.java:46-53 | an invalid body gives 400 with the store untouched, even for an absent id; a valid body on an absent id gives 404; on a stored id 200, "Task updated successfully", no data, and only that entry takes the body's details |
| TaskController.DeleteTask | src/main/java/com/example/taskmanager/controller/TaskController.java:55-60 | a stored id gives 200, "Task deleted successfully", no data, and the id is removed; an absent id gives 404 with the store untouched |
| TaskController.Dispatch | src/main/java/com/example/taskmanager/controller/TaskController.java:25-60 | the five routes: the two GETs leave the store unchanged; 201 answers exactly a valid POST; 400 answers exactly a POST or PUT with an invalid body; 404 only an addressed id that is not stored, with the store untouched |
| TaskController.DispatchKeepsValid | src/main/java/com/example/taskmanager/controller/TaskController.java:25-60 | on every route, a store whose tasks all satisfy the Task constraints keeps that property |
| TaskController.ReplyShape | src/main/java/com/example/taskmanager/controller/TaskController.java:14-61 | on every route the code is 200, 201, 400 or 404; a code of 400 or more comes with an error body of status "error" and an untouched store; a success body has status "success"; only the two GET routes carry data |
| TaskController.RejectedBodyReply | src/main/java/com/example/taskmanager/controller/TaskController.java:39-53 | POST and PUT reject an invalid body identically, listing the "field: message" line of every violated constraint and nothing else |
| TaskController.ShortTitleScenario | src/test/java/com/example/taskmanager/controller/TaskControllerTest.java:122-134 | POST with the title "AB" gives 400 with errors exactly ["title: Title must be between 3 and 100 characters"] and the store untouched |
| TaskController.ShortTitleLine | src/main/java/com/example/taskmanager/exception/GlobalExceptionHandler.java:49 | the title size violation prints as "title: " followed by its message |
| TaskController.MissingIdScenario | src/test/java/com/example/taskmanager/controller/TaskControllerTest.java:90-101 | GET /tasks/999 on an empty store gives 404 with message "Task not found with id: 999" and no errors |
| EnvKeys.ToLowerCase | src/main/java/com/example/taskmanager/TaskManagerApplication.java:30 | same length, each character lower-cased on its own |
| EnvKeys.Replace | src/main/java/com/example/taskmanager/TaskManagerApplication.java:30 | same length, every occurrence of the target replaced and nothing else changed |
| EnvKeys.SpringKey | src/main/java/com/example/taskmanager/TaskManagerApplication.java:30 | same length as the key, no '_' left, and position by position A-Z become a-z, '_' becomes '.', every other character stays |
| EnvKeys.SpringKeyIdempotent | src/main/java/com/example/taskmanager/TaskManagerApplication.java:30 | converting a converted key changes nothing |
| EnvKeys.SetProperties | src/main/java/com/example/taskmanager/TaskManagerApplication.java:26-32 | setting each entry in turn keeps every property already set and sets the converted key of every entry |
| EnvKeys.SetPropertiesKeys | src/main/java/com/example/taskmanager/TaskManagerApplication.java:26-32 | the properties afterwards are the earlier ones plus one per converted key, and a property no entry names keeps its value |
| EnvKeys.SetPropertiesLastWins | src/main/java/com/example/taskmanager/TaskManagerApplication.java:26-32 | a converted key ends up with the unchanged value of the last entry that converts to it |

## Left out

- Spring wiring is framework behaviour: dependency injection, annotation
  scanning, HTTP routing and JSON serialisation. The routes appear only as
  the `TaskController.Request` cases. Of serialisation, only the NON_NULL
  omission rule is kept, as `Option` fields and `ApiResponses.EmittedKeys`.
- JPA persistence is left out; the repository interface is not part of this
  model. The store is an abstract table. Its ids come from a counter that
  only grows, as an identity column's do. The table's natural order is
  unspecified, and the model takes insertion order, which is ascending id.
- TaskStore.Save: a body that carries an id which is not stored is inserted
  under a fresh id. The source leaves this case to the ORM's merge, whose
  behaviour depends on its version.
- The `ErrorResponse` timestamp is wall-clock time, so it is dropped, with
  `getTimestamp` and `setTimestamp`.
- Bean Validation does not fix the order of field errors.
  `Validation.ViolationList` and `Validation.ValidationErrors` fix
  declaration order, as one representative of the orders it may produce. The
  lemmas about replies (`ExceptionHandler.RejectedBodyErrors`,
  `TaskController.RejectedBodyReply`) speak of membership only. The
  short-title scenario has a single violation, so order does not arise
  there.
- Validation.Violations: lengths count Unicode scalar values. Java's
  `String.length` counts UTF-16 code units, so the two differ for
  characters outside the Basic Multilingual Plane.
- Validation.Trim follows Hibernate Validator's `@NotBlank`, which calls
  `trim()` and so treats every code point up to U+0020 as blank. It does not
  follow the Jakarta Bean Validation wording "at least one non-whitespace
  character" for characters such as U+00A0.
- A field error that is not tied to a field would fail the handler's cast.
  Task declares only field constraints, so this case is left out.
- Null strings and null lists passed to the `ErrorResponse`,
  `TaskValidationException` and `ApiResponse` constructors are not
  modelled. The `ErrorResponse` and `ApiResponse` setters take `Option`.
  `TaskValidationException.setErrors` takes a list that is never null. The
  message of an arbitrary exception can be null, because the 500 handler
  prints it.
- ResourceNotFoundException.java is not part of this model. Its message
  format comes from its test.
- TaskService.CreateTask and TaskService.UpdateTask do not model the
  persistence layer's own Bean Validation of an entity on insert and on
  update, so a direct service call with an invalid task succeeds in the
  model. Through the controller every body is validated first, so this case
  does not arise (`TaskController.DispatchKeepsValid`).
- No modelled controller route raises an unexpected exception, since the
  model's store never fails. `ExceptionHandler.Handle` still maps that case
  to 500.
- Requests the framework cannot bind are not modelled. A path id that does
  not parse as a Java `Long` raises a type-mismatch exception before the
  controller method runs. Examples are `GET /tasks/abc`, or an id beyond the
  64-bit range such as 2^63. A request body that is not readable JSON raises
  a message-not-readable exception. Neither is a validation or not-found
  failure, so both go to the catch-all handler. The reply is 500 with "An
  unexpected error occurred: " and the framework's message, whose text is
  not modelled.
- Ids are modelled as unbounded `int`. The `Request` cases carry only
  parsed ids, so an id the source refuses with 500 for being outside the
  `Long` range is, in the model, simply an absent id and answered with 404.
- EnvKeys.SpringKey lower-cases ASCII letters only, and assumes the JVM's
  default locale is not Turkish or Azeri. `toLowerCase()` uses that locale.
  Under a Turkic locale the ASCII letter 'I' becomes dotless 'ı' (U+0131)
  instead of 'i'. Under any locale, case folding of non-ASCII characters can
  change the string's length.
- Dotenv file loading and `System.setProperty` are I/O. The properties are
  modelled as a map, and the entries are applied in the order given.
- Two requests can race between `findById` and `save` or `delete`. That is a
  persistence and concurrency concern, outside this sequential model.
- The getters are field reads and are not modelled as separate members.
  The Task setters are modelled only where the service uses them
  (`Tasks.CopyDetails`).
