# todo_application — a verified model of the todo core

This project models the core of a small Spring web application that keeps a
list of todos. A todo has a generated id, a name, a done flag, an optional
deadline and an optional priority (LOW, MEDIUM, HIGH). The model covers:

- the `Todo` entity and its setters;
- the `TodoSaveDto` draft and its bean-validation constraints on the name;
- `TodoMapper`, which projects a todo into the display strings the list shows;
- `TodoService`, which creates, lists, renames, toggles, re-dates,
  re-prioritises and deletes todos, refusing deadlines in the past and ids
  that do not exist;
- the two controllers: `MvcController`, whose handlers render pages, and
  `RestController`, which answers JSON requests;
- `GlobalExceptionHandler`, which maps escaping exceptions to HTTP statuses.

Layout, one module per file:

| file | module | models |
|---|---|---|
| `wrappers.dfy` | `Wrappers` | `Option` (Java `null`) and `Result` |
| `dates.dfy` | `Dates` | `LocalDate`, `isBefore`, `toString()` and `LocalDate.parse` |
| `entity.dfy` | `Entity` | `Priority`, the row value `TodoRecord`, the mutable entity class `Todo` |
| `dto.dfy` | `Dto` | `TodoSaveDto`, `String.trim()`, the `@NotBlank`/`@Size` constraints, `TodoFrontendDto` |
| `mapper.dfy` | `Mapper` | `TodoMapper.entityToFrontEndDto` |
| `store.dfy` | `Store` | the rows behind `TodoRepository`, and the repository object |
| `errors.dfy` | `Errors` | the exceptions, their messages, `GlobalExceptionHandler` |
| `lifecycle.dfy` | `Lifecycle` | the rule of each `TodoService` operation, as a function on the store |
| `service.dfy` | `Service` | `TodoService` as a class that edits entities and saves them |
| `mvc.dfy` | `Mvc` | the `MvcController` handlers |
| `rest.dfy` | `Rest` | the `RestController` handlers |

The store is a value `Db`: a map from id to row, the scan order of the ids,
and the next id to hand out. Ids start at 1 and only grow, matching identity
generation. `Db.Valid()` says the scan order lists each stored id once, in
increasing order, and that every row carries its own key as its id. Every
operation keeps it.

Each service operation appears twice. `Lifecycle` states its rule as a pure
function from the store before to the store after, plus an `Outcome`: the
result, `PastDeadline` or `NotFound`. `Service.TodoService` carries the
operation out the way the Java code does. It loads a fresh entity from the
repository, changes it with a setter, and saves it back. Each method is proved
to leave the repository, and to return the outcome, exactly as the matching
`Lifecycle` function says.

The current date (`LocalDate.now()`) is a parameter named `today`.

The controllers are functions from the store to the new store and the
response. An MVC handler's response is the view it renders: the redirect,
"index" with its model attributes, or "error-page" with its message. A REST
handler's response is a status and a body.

## Model

| member | source | states |
|---|---|---|
| Dates.DaysInMonth | src/main/java/org/example/todo_application/controller/MvcController.java:91 | the ISO calendar `LocalDate.parse` checks days against: a month has 28 to 31 days, and 29 exactly for February of a leap year |
| Dates.IsBefore | src/main/java/org/example/todo_application/service/TodoService.java:25 | `a.isBefore(b)` holds exactly when the yyyyMMdd number of `a` is smaller than that of `b` |
| Dates.IsBeforeStrictTotal | src/main/java/org/example/todo_application/service/TodoService.java:25 | `isBefore` is irreflexive, transitive, and total on distinct dates |
| Dates.Format | src/main/java/org/example/todo_application/mapper/TodoMapper.java:14 | `toString()` of a date is ten characters yyyy-MM-dd, all digits but the two dashes |
| Dates.Parse | src/main/java/org/example/todo_application/controller/MvcController.java:91 | `LocalDate.parse` accepts only text of the yyyy-MM-dd shape |
| Dates.ParseFormat | src/main/java/org/example/todo_application/mapper/TodoMapper.java:14 | every rendered date parses back to the same date |
| Dates.FormatParse | src/main/java/org/example/todo_application/controller/MvcController.java:91 | a text that parses is the canonical rendering of the date it yields |
| Dates.ParseRejectsLength | src/main/java/org/example/todo_application/controller/MvcController.java:91 | text that is not ten characters long is never a date |
| Entity.PriorityValueOf | src/main/java/org/example/todo_application/controller/MvcController.java:107 | `Priority.valueOf` yields a constant exactly when the token is that constant's name |
| Entity.PriorityName | src/main/java/org/example/todo_application/mapper/TodoMapper.java:15 | `toString()` of a constant is one of the three constant names |
| Entity.Toggled | src/main/java/org/example/todo_application/entity/Todo.java:25-27 | the toggled row has the opposite done flag and the same other fields |
| Entity.ToggledTwice | src/main/java/org/example/todo_application/entity/Todo.java:25-27 | toggling twice restores the row |
| Entity.Todo.constructor | src/main/java/org/example/todo_application/entity/Todo.java:8-13 | the new entity holds exactly the given field values |
| Entity.Todo.SetTodoId | src/main/java/org/example/todo_application/entity/Todo.java:15-17 | only the id changes, to the given value |
| Entity.Todo.SetName | src/main/java/org/example/todo_application/entity/Todo.java:18-19 | only the name changes, to the given value |
| Entity.Todo.SetDone | src/main/java/org/example/todo_application/entity/Todo.java:20 | only the done flag changes, to the given value |
| Entity.Todo.SetDeadline | src/main/java/org/example/todo_application/entity/Todo.java:21 | only the deadline changes, to the given value, and absent clears it |
| Entity.Todo.SetPriority | src/main/java/org/example/todo_application/entity/Todo.java:22-23 | only the priority changes, to the given value, and absent clears it |
| Entity.Todo.ChangeIsDoneStatus | src/main/java/org/example/todo_application/entity/Todo.java:25-27 | the done flag is negated and no other field changes |
| Dto.Draft | src/main/java/org/example/todo_application/dto/TodoSaveDto.java:18-21 | a draft built from submitted fields is done only when the bound `done` flag (Lombok's property for the primitive `isDone`, line 19) was sent as true; the other fields are copied |
| Dto.TrimStartBlank | src/main/java/org/example/todo_application/dto/TodoSaveDto.java:16 | trimming the front leaves nothing exactly for a blank string, otherwise starts with a character above U+0020, and never lengthens |
| Dto.TrimEndKeepsHead | src/main/java/org/example/todo_application/dto/TodoSaveDto.java:16 | trimming the end of a string whose first character is above U+0020 leaves something that starts with that character |
| Dto.TrimEndLast | src/main/java/org/example/todo_application/dto/TodoSaveDto.java:16 | trimming the end leaves nothing or ends with a character above U+0020, and never lengthens |
| Dto.TrimStartDropsPrefix | src/main/java/org/example/todo_application/dto/TodoSaveDto.java:16 | trimming the front is the input with a blank prefix cut off |
| Dto.TrimEndDropsSuffix | src/main/java/org/example/todo_application/dto/TodoSaveDto.java:16 | trimming the end is the input with a blank suffix cut off |
| Dto.TrimIsSlice | src/main/java/org/example/todo_application/dto/TodoSaveDto.java:16 | trimming both ends leaves the slice of the input between a blank prefix and a blank suffix |
| Dto.Trim | src/main/java/org/example/todo_application/dto/TodoSaveDto.java:16 | `trim()` is the slice of the input left after cutting a blank prefix and a blank suffix; it is empty exactly when every character is at or below U+0020, and otherwise starts and ends with a character above U+0020 |
| Dto.Violations | src/main/java/org/example/todo_application/dto/TodoSaveDto.java:16-18 | `@NotBlank` is violated exactly by a null or blank name; `@Size(max = 100)` exactly by a name over 100 characters |
| Dto.IsValid | src/main/java/org/example/todo_application/dto/TodoSaveDto.java:16-18 | a draft passes validation exactly when its name is present, at most 100 characters and not blank |
| Dto.ValidIff | src/main/java/org/example/todo_application/dto/TodoSaveDto.java:16-18 | a draft is valid exactly when its name is present, at most 100 characters, and has a character above U+0020 |
| Mapper.EntityToFrontEndDto | src/main/java/org/example/todo_application/mapper/TodoMapper.java:9-17 | id and name are copied; "Finished" exactly when done, else "Not finished"; "No deadline" exactly when there is none, else a date text that parses back to the deadline; "No priority" exactly when there is none, else the name `valueOf` maps back to the priority |
| Mapper.DeadlineLabelIsFormat | src/main/java/org/example/todo_application/mapper/TodoMapper.java:14 | a present deadline is shown as its `toString()` form |
| Mapper.ProjectionIsInjective | src/main/java/org/example/todo_application/mapper/TodoMapper.java:9-17 | two rows with the same projection are equal, so the projection loses nothing |
| Mapper.MapAll | src/main/java/org/example/todo_application/service/TodoService.java:39-41 | the stream keeps the length, and element i is the projection of row i |
| Store.EmptyIsValid | src/main/java/org/example/todo_application/entity/Todo.java:15-16 | the empty store satisfies the store invariant and has no rows |
| Store.FindById | src/main/java/org/example/todo_application/service/TodoService.java:45-46 | a row is found exactly when the id is stored, it is the stored row, and in a valid store it carries that id |
| Store.Insert | src/main/java/org/example/todo_application/service/TodoService.java:34 | saving an entity without an id stores it under the next id, last in scan order; the invariant holds and the count grows by one |
| Store.Update | src/main/java/org/example/todo_application/service/TodoService.java:48 | saving an entity with an id overwrites only that row; ids, order and counter stay, and the invariant holds |
| Store.Without | src/main/java/org/example/todo_application/service/TodoService.java:78 | the scan order minus the deleted id keeps exactly the other ids, still increasing |
| Store.Remove | src/main/java/org/example/todo_application/service/TodoService.java:78 | delete drops exactly that row; the others are unchanged, the invariant holds and the count drops by one |
| Store.All | src/main/java/org/example/todo_application/service/TodoService.java:38 | `findAll` yields the rows in scan order, one per id |
| Store.DistinctElements | src/main/java/org/example/todo_application/service/TodoService.java:38 | an increasing sequence of ids has no repeats |
| Store.ScanLengthIsCount | src/main/java/org/example/todo_application/service/TodoService.java:38 | a full scan yields exactly as many rows as the store holds |
| Store.KeysAreScan | src/main/java/org/example/todo_application/service/TodoService.java:38 | in a valid store the scan order lists as many ids as there are rows |
| Store.Count | src/test/java/org/example/todo_application/controller/RestControllerIntegrationTest.java:66 | `count()`, which the tests assert on, is the number of rows, and in a valid store the length of the scan order |
| Store.TodoRepository.constructor | src/main/java/org/example/todo_application/service/TodoService.java:21 | a new repository is empty and valid |
| Store.TodoRepository.FindById | src/main/java/org/example/todo_application/service/TodoService.java:45-46 | the result is null exactly when no row has the id; otherwise it is a fresh entity holding the row |
| Store.TodoRepository.FindAll | src/main/java/org/example/todo_application/service/TodoService.java:38 | the result is the scan of the store |
| Store.TodoRepository.Save | src/main/java/org/example/todo_application/service/TodoService.java:34-48 | inserts an entity without an id and gives it the generated id; overwrites the row of one with an id; the invariant holds and the returned row is the entity's |
| Store.TodoRepository.Delete | src/main/java/org/example/todo_application/service/TodoService.java:78 | the store becomes the store with that row removed, and the invariant holds |
| Store.TodoRepository.Count | src/test/java/org/example/todo_application/controller/RestControllerIntegrationTest.java:66 | `todoRepository.count()`, which the tests assert on, is the number of stored rows |
| Errors.Abbreviated | src/main/java/org/example/todo_application/controller/MvcController.java:91 | the quoted input of a parse message is the text itself up to 64 characters, otherwise its first 64 characters followed by "..." |
| Errors.Message | src/main/java/org/example/todo_application/exception/GlobalExceptionHandler.java:15-22 | `getMessage()`: the fixed texts of the two service exceptions; a parse failure's message is "Text '", the abbreviated text, "' could not be parsed" and java.time's tail; an enum failure's ends in the token after the fixed enum prefix; other failures carry their own text |
| Errors.HandleDeadlineExceptionForRest | src/main/java/org/example/todo_application/exception/GlobalExceptionHandler.java:13-17 | 400 with "Deadline cannot be in past" |
| Errors.HandleGeneralExceptionForRest | src/main/java/org/example/todo_application/exception/GlobalExceptionHandler.java:19-23 | 500 with a body that is "An unexpected error occurred: " followed by exactly the message |
| Errors.Handle | src/main/java/org/example/todo_application/exception/GlobalExceptionHandler.java:13-23 | 400 exactly for the deadline exception; 500 for every other, by the general handler; a missing todo gives 500 "An unexpected error occurred: Todo not found" |
| Lifecycle.Raised | src/main/java/org/example/todo_application/service/TodoService.java:24-80 | an outcome raises nothing exactly when it is a result; PastDeadline raises the deadline exception and NotFound the missing-todo exception |
| Lifecycle.InPast | src/main/java/org/example/todo_application/service/TodoService.java:25 | a deadline is refused exactly when it is present, is not today, and today is not before it |
| Lifecycle.NewRecord | src/main/java/org/example/todo_application/service/TodoService.java:28-33 | the built entity has no id yet and carries the draft's name, done flag, deadline and priority |
| Lifecycle.SaveTodo | src/main/java/org/example/todo_application/service/TodoService.java:24-35 | a deadline before today fails with no write; otherwise exactly one row is added, under the next id, last in scan order, holding the draft's fields; never NotFound; the invariant holds |
| Lifecycle.GetFrontedTodoDtoList | src/main/java/org/example/todo_application/service/TodoService.java:37-42 | one projection per stored row, in scan order |
| Lifecycle.UpdateTodoName | src/main/java/org/example/todo_application/service/TodoService.java:44-49 | a missing id fails with no write; otherwise only that row's name changes, and the saved row is returned |
| Lifecycle.ChangeTodoIsDoneStatus | src/main/java/org/example/todo_application/service/TodoService.java:51-56 | a missing id fails with no write; otherwise only that row's done flag flips |
| Lifecycle.UpdateTodoDeadline | src/main/java/org/example/todo_application/service/TodoService.java:58-66 | a past date fails before the id is looked up; then a missing id fails; otherwise only that row's deadline is set, and absent clears it; no failure writes |
| Lifecycle.UpdateTodoPriority | src/main/java/org/example/todo_application/service/TodoService.java:68-73 | a missing id fails with no write; otherwise only that row's priority is set, and absent clears it |
| Lifecycle.DeleteTodo | src/main/java/org/example/todo_application/service/TodoService.java:75-80 | a missing id fails with no write; otherwise exactly that row goes, the others stay, and the count drops by one |
| Lifecycle.ChangeStatusTwiceRestores | src/main/java/org/example/todo_application/service/TodoService.java:51-56 | changing the status twice restores the store, whether or not the id exists |
| Lifecycle.SettersAreIdempotent | src/main/java/org/example/todo_application/service/TodoService.java:44-73 | renaming, re-dating or re-prioritising again with the same value changes nothing more |
| Lifecycle.DeleteTwiceFails | src/main/java/org/example/todo_application/service/TodoService.java:75-80 | after a delete succeeds, deleting the same id again fails with NotFound and writes nothing |
| Lifecycle.SavedTodoIsListedLast | src/main/java/org/example/todo_application/service/TodoService.java:24-42 | a saved todo is found under its new id, and the list grows by one with its projection last |
| Lifecycle.CreateListDeleteRun | src/main/java/org/example/todo_application/service/TodoService.java:24-80 | on an empty store: save gets id 1 and lists as "Not finished", "No deadline", "No priority"; delete empties the store; a second delete fails |
| Lifecycle.FinishedHighPriorityIsListed | src/main/java/org/example/todo_application/mapper/TodoMapper.java:13-15 | a todo saved done with priority HIGH is listed as "Finished" and "HIGH" |
| Service.TodoService.constructor | src/main/java/org/example/todo_application/service/TodoService.java:18-22 | the service holds the given repository, and the repository is valid |
| Service.TodoService.SaveTodo | src/main/java/org/example/todo_application/service/TodoService.java:24-35 | the repository and the outcome are exactly as `Lifecycle.SaveTodo` says |
| Service.TodoService.GetFrontedTodoDtoList | src/main/java/org/example/todo_application/service/TodoService.java:37-42 | one projection per stored row in scan order, equal to `Lifecycle.GetFrontedTodoDtoList`; nothing changes |
| Service.TodoService.UpdateTodoName | src/main/java/org/example/todo_application/service/TodoService.java:44-49 | the repository and the outcome are exactly as `Lifecycle.UpdateTodoName` says |
| Service.TodoService.ChangeTodoIsDoneStatus | src/main/java/org/example/todo_application/service/TodoService.java:51-56 | the repository and the outcome are exactly as `Lifecycle.ChangeTodoIsDoneStatus` says |
| Service.TodoService.UpdateTodoDeadline | src/main/java/org/example/todo_application/service/TodoService.java:58-66 | the repository and the outcome are exactly as `Lifecycle.UpdateTodoDeadline` says |
| Service.TodoService.UpdateTodoPriority | src/main/java/org/example/todo_application/service/TodoService.java:68-73 | the repository and the outcome are exactly as `Lifecycle.UpdateTodoPriority` says |
| Service.TodoService.DeleteTodo | src/main/java/org/example/todo_application/service/TodoService.java:75-80 | the repository and the outcome are exactly as `Lifecycle.DeleteTodo` says |
| Mvc.AfterCall | src/main/java/org/example/todo_application/controller/MvcController.java:61-69 | redirect exactly when nothing was thrown; otherwise the error page with the action's prefix and the message |
| Mvc.DecodeDeadline | src/main/java/org/example/todo_application/controller/MvcController.java:91 | absent or empty means no deadline; other text succeeds exactly when it parses; a decoded date renders back to the text; failure is the parse exception for that text with the given java.time tail |
| Mvc.DecodePriority | src/main/java/org/example/todo_application/controller/MvcController.java:107 | absent, empty or "null" mean no priority; a decoded constant is named by the token; failure happens exactly for any other token that names no constant |
| Mvc.HasErrors | src/main/java/org/example/todo_application/controller/MvcController.java:26 | the form has errors exactly when a field failed to bind, the name is null or blank, or it is over 100 characters |
| Mvc.CreateTodo | src/main/java/org/example/todo_application/controller/MvcController.java:22-38 | with errors the form is shown again and nothing is written; a past deadline gives the error page "Failed to create todo: Deadline cannot be in past"; otherwise the service saves one todo and the handler redirects |
| Mvc.ListPage | src/main/java/org/example/todo_application/controller/MvcController.java:42-50 | a list gives "index" with the list and an empty form; a failure gives the error page "Failed to get todos: " and the message |
| Mvc.GetFrontendTodoList | src/main/java/org/example/todo_application/controller/MvcController.java:40-51 | "index" with an empty form and one projection per stored row, in scan order |
| Mvc.UpdateName | src/main/java/org/example/todo_application/controller/MvcController.java:53-70 | a name over 100 characters is refused without a write; then a missing id gives "Failed to update todo: Todo not found"; otherwise the service renames and the handler redirects |
| Mvc.ChangeIsDoneStatus | src/main/java/org/example/todo_application/controller/MvcController.java:72-84 | a missing id gives "Failed to change todo status: Todo not found" without a write; otherwise the status flips and the handler redirects |
| Mvc.UpdateDeadline | src/main/java/org/example/todo_application/controller/MvcController.java:86-99 | text that is not a date gives "Failed to update todo deadline: Text '", the text cut to 64 characters, "' could not be parsed" and java.time's tail; then a past date, then a missing id, each give their error page; otherwise the service sets the deadline; no error page writes |
| Mvc.UpdatePriority | src/main/java/org/example/todo_application/controller/MvcController.java:102-117 | an unknown token gives the enum-constant error page before the service is called; then a missing id gives its error page; otherwise the service sets the priority; no error page writes |
| Mvc.DeleteTodo | src/main/java/org/example/todo_application/controller/MvcController.java:120-130 | a missing id gives "Failed to delete todo: Todo not found" without a write; otherwise the row goes and the handler redirects |
| Mvc.ListedDeadlineDecodes | src/main/java/org/example/todo_application/controller/MvcController.java:91 | a deadline as the list shows it, sent back in the form, decodes to the same date |
| Mvc.ListedPriorityDecodes | src/main/java/org/example/todo_application/controller/MvcController.java:107 | a priority as the list shows it decodes to the same priority; "No priority" is refused |
| Rest.Respond | src/main/java/org/example/todo_application/exception/GlobalExceptionHandler.java:13-23 | the success reply when nothing was thrown, otherwise the exception handler's reply |
| Rest.DeadlineMessage | src/main/java/org/example/todo_application/controller/RestController.java:63 | "Deadline is cleared" for no date; otherwise "Deadline adjusted to: " followed by text that parses back to the date |
| Rest.PriorityMessage | src/main/java/org/example/todo_application/controller/RestController.java:71 | "Priority is cleared" for no priority; otherwise "Priority adjusted to: " followed by the name `valueOf` maps back to it |
| Rest.CreateTodo | src/main/java/org/example/todo_application/controller/RestController.java:30-34 | an invalid body is 500 "An unexpected error occurred: " plus Spring's rejection text, with no write; a past deadline is 400 "Deadline cannot be in past"; otherwise one todo is saved and the reply is 201 "Todo: <name> was saved"; 201 happens exactly in that last case, and any other status leaves the store unchanged |
| Rest.CreateTodoWithFieldErrors | src/main/java/org/example/todo_application/controller/RestController.java:30-34 | the tests' reading: an invalid body is 400 with its violated constraints and no write; a valid body is handled exactly as the code does; 400 happens exactly for an invalid body or a past deadline |
| Rest.InvalidBodyIsServerError | src/test/java/org/example/todo_application/controller/RestControllerUnitTest.java:71-94 | the blank-name and no-name bodies of the test get 500 as written, and 400 with the `@NotBlank` field error in the tests' reading |
| Rest.ListReply | src/main/java/org/example/todo_application/controller/RestController.java:38-43 | a list gives 200 with the list; a failure gives 500 with no body |
| Rest.GetFrontendTodoList | src/main/java/org/example/todo_application/controller/RestController.java:36-44 | 200 with one projection per stored row, in scan order |
| Rest.UpdateName | src/main/java/org/example/todo_application/controller/RestController.java:46-51 | a missing id is 500 "An unexpected error occurred: Todo not found" without a write; otherwise the row is renamed and the reply is 200 "Todo renamed to: <name>" |
| Rest.ChangeIsDoneStatus | src/main/java/org/example/todo_application/controller/RestController.java:53-57 | a missing id is that 500 without a write; otherwise the status flips and the reply is 200 "Status was changed" |
| Rest.UpdateDeadline | src/main/java/org/example/todo_application/controller/RestController.java:59-65 | a past date is 400 whatever the id; then a missing id is 500; otherwise the deadline is set and the reply is 200 with the deadline message |
| Rest.UpdatePriority | src/main/java/org/example/todo_application/controller/RestController.java:67-73 | a missing id is 500 without a write; otherwise the priority is set and the reply is 200 with the priority message |
| Rest.DeleteTodo | src/main/java/org/example/todo_application/controller/RestController.java:75-80 | a missing id is 500 without a write; otherwise the row goes and the reply is 200 "Todo was deleted" |
| Rest.UpdatesSucceedIffFound | src/main/java/org/example/todo_application/controller/RestController.java:46-80 | each update endpoint answers 200 exactly when the id exists (and, for the deadline, the date is not past); any other status leaves the store unchanged |
| Rest.ControllersAgree | src/main/java/org/example/todo_application/controller/MvcController.java:53-130 | the page handlers and the JSON handlers change the store in the same way; a date or priority sent as the list shows it acts like the bound value |

## Left out

- `LocalDate.now()` is not modelled. The current date is the parameter `today`.
- Dates with years outside 0 to 9999 are not modelled. Nor are the signed, more-than-four-digit renderings `java.time` uses for such years.
- Dates.Parse: only the strict ten-character yyyy-MM-dd form is modelled.
- Mvc.UpdateDeadline: the tail java.time appends to a parse message is not computed. The page text takes it as the parameter `parseDetail`. That tail is " at index N" for malformed text, ", unparsed text found at index N" for trailing text, or ": " and a cause for a date that does not exist. The 64-character abbreviation of the quoted text is modelled.
- String lengths are counted in characters, as Dafny's `string` holds them. Java's `length()` counts UTF-16 code units, which differs outside the Basic Multilingual Plane.
- The database is not modelled. That covers the `@Column(length = 100)` limit, database errors and transactions. With it go the store failures that would make the list handlers answer 500, or fail any other call. `Mvc.ListPage` and `Rest.ListReply` take such a failure as input.
- `TodoRepository` itself, a Spring Data interface, is not part of this model. `Store` models what the service relies on: find by id, find all in id order, save and delete. `count()` is not called by the service; it is modelled because the repository's integration tests assert on it.
- Spring's request binding is not modelled. The MVC create handler takes a flag for field binding errors. The REST handlers take the deadline and priority already bound.
- Spring's own failures are not modelled: a missing or malformed request parameter, and an unreadable JSON body.
- Rest.CreateTodo: Spring's message for a rejected body is not computed; it is the parameter `rejection`. The 400 reply with field messages that the repository's tests expect is modelled separately, as `Rest.CreateTodoWithFieldErrors` (see Findings).
- Rest.UpdateDeadline: the parameter is declared required. The `null` branch ("Deadline is cleared") is still modelled, but it may be unreachable once Spring has bound the request.
- Rest.UpdatePriority: the parameter is declared required. The `null` branch ("Priority is cleared") is still modelled, but it may be unreachable once Spring has bound the request.
- Logging, the Lombok builders and getters, `script.js` and the HTML templates are not modelled. They make no decision.
- Concurrent requests are not modelled; each handler runs alone on the store.
- The MVC rename handler checks only the name's length, and the REST one checks nothing. Neither refuses a blank name. The model keeps both as written.

## Findings

| source | as written | input that shows it | evidently intended | confidence | as-written member | corrected member |
|---|---|---|---|---|---|---|
| src/main/java/org/example/todo_application/controller/RestController.java:31 | `@Valid` throws `MethodArgumentNotValidException` before the handler runs. The only advice, `GlobalExceptionHandler.java:19-23`, handles it as a general `Exception`: 500 "An unexpected error occurred: …". | a POST of `{"name": ""}` or of a body without a name (`Rest.InvalidBodyIsServerError`) | 400 with `{"name": "must not be blank"}` and no write, as `RestControllerUnitTest.java:71-94` asserts with only this advice registered | medium; not executed | Rest.CreateTodo | Rest.CreateTodoWithFieldErrors |
