# To-do services: ownership-scoped store and authentication core

This project models, in Dafny, the decision logic of a two-service to-do
application:

* the **identity service** (`user-service`) registers users and logs them in.
  It reads and writes a user table keyed by exact email. It hashes passwords,
  checks them, and signs tokens for `(uuid, email)`.
* the **todo service** (`todo-service`) trusts only those tokens. A
  bearer-header gate attaches the token's subject to the request. Every read,
  update and delete of a todo is then scoped by the pair `(id, owner)`. A
  missing todo and another user's todo give the same error,
  `Todo not found or access denied`.

Each source file becomes one module:

| module | file | form |
|---|---|---|
| `TodoRepo` | todo.repository.ts | pure queries over the table, and a class `TodoRepository` (`rows`, `nextId`) whose methods change it |
| `TodoSvc` | todo.service.ts | class `TodoService`: look up, then act or fail |
| `TodoValidators` | todo.validators.ts | pure schema functions |
| `TodoHandlers` | todo.controller.ts | pure decision tables, and a class `TodoController` whose handlers write the `Response` |
| `AuthGate` | requireAuth.ts | decision function `Decide`, and a method `RequireAuth` that sets `req.user` or writes the reply |
| `ErrorHandling` | errorHandler.ts | a pure function |
| `UserRepo` | user.repository.ts | pure lookups, and a class `UserRepository` whose methods change the table |
| `AuthSvc` | auth.service.ts | specification functions `RegisterOutcome`/`LoginOutcome`, and a class `AuthService` proved against them |
| `AuthHandlers` | auth.controller.ts | decision tables and a class `AuthController` |
| `TokenTrust` | jwt.ts, todo.routes.ts | the token contract between the services, and the gate placed in front of a route |

`Outcomes` holds the shared result types: `Option`, `Result` (a value, or a
thrown `Error` with its message) and `Completion` (what a `catch` clause
sees). `Http` holds the `{ success, data?, error? }` envelope and the
`Response` object.

Facts about the source that the model records:

* **Verifier faults give 401.** Any exception thrown inside token
  verification is answered 401 `INVALID_TOKEN`, configuration faults
  included (requireAuth.ts:45-53). 500 `AUTH_ERROR` comes only from a fault
  outside that block, such as one while reading the header or writing a
  reply (requireAuth.ts:54-62). `Decide` takes such a fault as the
  parameter `outerFault`.
* **A store-level unique violation is answered 400.** When the store refuses
  an insert because a unique key repeats, `register` passes on the store's
  own message (auth.service.ts:26). The controller then answers 400
  `REGISTRATION_ERROR`, not 409 (auth.controller.ts:36-42). Because
  `register` checks the email first, a repeated email never reaches the
  store in this sequential model; a repeated uuid does.
* **Content length is checked only by the route schema.** `updateTodo` stores
  whatever content it is given (todo.service.ts:18-25); the length rule lives
  in `TodoValidators`.
* **The register result uses `user_email`.** The service returns the field
  `user_email` (auth.service.ts:31-36), and the model follows that field
  (`PublicUser.userEmail`). A unit test reads `result.user.email` instead
  (auth.unit.test.ts:73).

## Model

| member | source | states |
|---|---|---|
| `TodoRepo.OwnedBy` | todo-service/src/modules/todos/todo.repository.ts:17 | a row is in the result iff it is in the table and has that owner, and each owned row occurs exactly as often as in the table (other owners' rows not at all) |
| `TodoRepo.InsertByDate` | todo-service/src/modules/todos/todo.repository.ts:18 | inserting into a newest-first sequence keeps it newest-first and adds exactly that row (multiset) |
| `TodoRepo.SortNewestFirst` | todo-service/src/modules/todos/todo.repository.ts:18 | the result is ordered by `createdAt` descending and is a permutation of the input |
| `TodoRepo.FindByUserUuid` | todo-service/src/modules/todos/todo.repository.ts:15-20 | the result holds exactly the owner's rows (as a multiset), newest first |
| `TodoRepo.FindByIdAndUserUuid` | todo-service/src/modules/todos/todo.repository.ts:22-29 | returns a stored row matching both id and owner, and `None` only when no row matches both |
| `TodoRepo.WithContent` | todo-service/src/modules/todos/todo.repository.ts:31-39 | same length; the matched row gets the new content; id, uuid, owner and createdAt of every row are kept; unmatched rows are unchanged |
| `TodoRepo.Without` | todo-service/src/modules/todos/todo.repository.ts:41-48 | a row survives iff it was stored and does not match `(id, owner)` |
| `TodoRepo.TodoRepository.Create` | todo-service/src/modules/todos/todo.repository.ts:6-13 | appends one row with the given content and owner and an id no existing row has; the id counter advances; the table invariant is kept |
| `TodoRepo.TodoRepository.Update` | todo-service/src/modules/todos/todo.repository.ts:31-39 | with no match: the store's not-found error and an unchanged table; with a match: returns the row with its new content and the table becomes `WithContent` |
| `TodoRepo.TodoRepository.Delete` | todo-service/src/modules/todos/todo.repository.ts:41-48 | with no match: the store's not-found error and an unchanged table; with a match: returns the removed row, and the table becomes `Without` and is one row shorter |
| `TodoRepo.WithoutKeepsOrder` | todo-service/src/modules/todos/todo.repository.ts:41-48 | deleting keeps ids strictly increasing along the table |
| `TodoRepo.WithoutRemovesOne` | todo-service/src/modules/todos/todo.repository.ts:41-48 | with unique ids and a matching row, a scoped delete removes exactly one row |
| `TodoRepo.WithoutNoMatch` | todo-service/src/modules/todos/todo.repository.ts:41-48 | a scoped delete that matches nothing leaves the table equal to itself |
| `TodoRepo.OwnedBySnoc` | todo-service/src/modules/todos/todo.repository.ts:15-17 | filtering by owner distributes over appending one row |
| `TodoRepo.ListAfterCreate` | todo-service/src/modules/todos/todo.repository.ts:6-20 | after an insert, the creator's listing gains exactly the new row and every other owner's listing is unchanged (multisets) |
| `TodoRepo.UpdateIsolation` | todo-service/src/modules/todos/todo.repository.ts:31-39 | an update scoped to one owner leaves every other owner's rows and listing identical |
| `TodoRepo.DeleteIsolation` | todo-service/src/modules/todos/todo.repository.ts:41-48 | a delete scoped to one owner leaves every other owner's rows and listing identical |
| `TodoRepo.OwnRowVisible` | todo-service/src/modules/todos/todo.repository.ts:22-29 | with unique ids, the owner's lookup by a row's id returns exactly that row |
| `TodoRepo.ForeignRowInvisible` | todo-service/src/modules/todos/todo.repository.ts:22-29 | with unique ids, another user's lookup of a stored row's id finds nothing, the same as for an id that does not exist |
| `TodoSvc.TodoService.CreateTodo` | todo-service/src/modules/todos/todo.service.ts:10-12 | the new row carries the given content, owner, uuid and clock reading, and the counter's id, which no row had; the table is the old table plus that row and the counter advances by one |
| `TodoSvc.TodoService.GetUserTodos` | todo-service/src/modules/todos/todo.service.ts:14-16 | returns the store's listing, which holds exactly the caller's rows, newest first |
| `TodoSvc.TodoService.UpdateTodo` | todo-service/src/modules/todos/todo.service.ts:18-25 | fails iff no row matches `(id, owner)`, always with `Todo not found or access denied` and no change; otherwise only that row's content changes and the updated row is returned; the id counter never moves |
| `TodoSvc.TodoService.DeleteTodo` | todo-service/src/modules/todos/todo.service.ts:27-34 | fails iff no row matches `(id, owner)`, with the same error and nothing removed; otherwise exactly that row is removed and no longer appears in the owner's listing; the id counter never moves, so a deleted id is not handed out again |
| `TodoSvc.TodoService.GetTodoById` | todo-service/src/modules/todos/todo.service.ts:36-43 | reads only; returns a stored row owned by the caller, or the same not-found error iff none matches |
| `TodoValidators.Utf16Length` | todo-service/src/modules/todos/todo.validators.ts:5 | the schema's `length` counts UTF-16 code units: between `|s|` and `2|s|`, and zero only for the empty string |
| `TodoValidators.TypeIssues` | todo-service/src/modules/todos/todo.validators.ts:5 | a field passes the type check iff it is a string |
| `TodoValidators.ContentLengthIssues` | todo-service/src/modules/todos/todo.validators.ts:5 | no issue iff the length is 1 to 500; empty gives exactly `Content is required`; over 500 gives exactly `Content too long` |
| `TodoValidators.ValidateCreate` | todo-service/src/modules/todos/todo.validators.ts:3-7 | accepted iff the content is a string of length 1 to 500, with the content as the value; empty, too long and missing content each give their one issue |
| `TodoValidators.OptionalContentIssues` | todo-service/src/modules/todos/todo.validators.ts:14 | absent content passes; present content passes iff the create rule accepts it |
| `TodoValidators.ValidateUpdate` | todo-service/src/modules/todos/todo.validators.ts:9-16 | accepted iff `id` is a string and the content is absent or acceptable to create; a missing id is reported first |
| `TodoValidators.ValidateDelete` | todo-service/src/modules/todos/todo.validators.ts:18-22 | accepted iff `id` is given as a string; a missing id is reported as `Required` |
| `AuthGate.Decide` | todo-service/src/middlewares/requireAuth.ts:18-63 | outer fault gives 500 `AUTH_ERROR`; no header or no case-sensitive `Bearer ` prefix gives 401 `MISSING_AUTH_HEADER`; otherwise proceeds iff the verifier accepts the header minus its first 7 characters, with the decoded payload, and else gives 401 `INVALID_TOKEN` |
| `AuthGate.RequireAuth` | todo-service/src/middlewares/requireAuth.ts:18-63 | on proceed: sets `req.user` to the payload, calls `next` and writes no response; on deny: writes the decided error reply, leaves `req.user` unset and does not call `next` |
| `AuthGate.BearerRoundTrip` | todo-service/src/middlewares/requireAuth.ts:33 | for the header `"Bearer " + token`, the verifier receives exactly `token` |
| `AuthGate.SchemeIsCaseSensitive` | todo-service/src/middlewares/requireAuth.ts:22 | a lower-case `bearer` scheme is refused as a missing header, without calling the verifier |
| `ErrorHandling.HandleError` | todo-service/src/middlewares/errorHandler.ts:15-38 | status is the error's status when non-zero, else 500; the message defaults to `Internal Server Error` when empty; the code defaults to `INTERNAL_ERROR` when absent or empty; `success` is always false; a stack appears only in development |
| `TodoHandlers.UnauthorizedReply` | todo-service/src/modules/todos/todo.controller.ts:17-26 | 401 `UNAUTHORIZED` with message `Unauthorized` |
| `TodoHandlers.MessageOf` | todo-service/src/modules/todos/todo.controller.ts:42 | an `Error` reports its own message; any other thrown value reports the fallback |
| `TodoHandlers.NotFoundReply` | todo-service/src/modules/todos/todo.controller.ts:111-119 | 404 `TODO_NOT_FOUND` with the service's not-found message |
| `TodoHandlers.CreateTodoReply` | todo-service/src/modules/todos/todo.controller.ts:28-45 | 201 with the todo iff the service returned; any throw gives 400 `CREATE_TODO_ERROR` with the error's message |
| `TodoHandlers.GetUserTodosReply` | todo-service/src/modules/todos/todo.controller.ts:64-79 | 200 with the list iff the service returned; any throw gives 500 `FETCH_TODOS_ERROR` with the fixed message `Failed to fetch todos` |
| `TodoHandlers.UpdateTodoReply` | todo-service/src/modules/todos/todo.controller.ts:100-128 | 200 iff returned; 404 `TODO_NOT_FOUND` iff the not-found error was thrown; any other throw gives 400 `UPDATE_TODO_ERROR` with its message |
| `TodoHandlers.DeleteTodoReply` | todo-service/src/modules/todos/todo.controller.ts:148-173 | 204 with no body iff returned; 404 iff not-found; any other throw gives 400 `DELETE_TODO_ERROR` |
| `TodoHandlers.TodoController.CreateTodo` | todo-service/src/modules/todos/todo.controller.ts:12-47 | without a truthy subject: 401 and no change, counter included; otherwise one row with the given uuid, the content, the clock reading and the counter's id is added for the subject, the counter advances, and 201 carries the row |
| `TodoHandlers.TodoController.GetUserTodos` | todo-service/src/modules/todos/todo.controller.ts:49-81 | without a truthy subject: 401; otherwise 200 with the subject's listing |
| `TodoHandlers.TodoController.UpdateTodo` | todo-service/src/modules/todos/todo.controller.ts:83-130 | without a subject: 401 and no change; a missing or foreign id: 404 and no change; the caller's own row: 200 with the updated row; the id counter never moves |
| `TodoHandlers.TodoController.DeleteTodo` | todo-service/src/modules/todos/todo.controller.ts:132-175 | without a subject: 401 and no change; a missing or foreign id: 404 and no change; the caller's own row: 204 and the row removed; the id counter never moves |
| `UserRepo.FindByEmail` | user-service/src/modules/user/user.repository.ts:6-10 | returns a stored user whose email equals the argument exactly, and `None` only when there is none |
| `UserRepo.FindByUuid` | user-service/src/modules/user/user.repository.ts:12-16 | returns a stored user with that uuid, and `None` only when there is none |
| `UserRepo.WithPassword` | user-service/src/modules/user/user.repository.ts:27-32 | only the hash of the user with that uuid changes; every uuid and email, and every other user, are kept |
| `UserRepo.UserRepository.Create` | user-service/src/modules/user/user.repository.ts:18-25 | a repeated email or uuid is refused with the table unchanged; otherwise exactly one user with that email and hash is appended; email and uuid stay unique |
| `UserRepo.UserRepository.UpdatePassword` | user-service/src/modules/user/user.repository.ts:27-32 | an unknown uuid fails with the table unchanged; otherwise the table becomes `WithPassword` and the updated user is returned |
| `UserRepo.EmailIsKey` | user-service/src/modules/user/user.repository.ts:6-10 | with unique emails, looking up a stored user's email returns that user |
| `UserRepo.FindByEmailAfterInsert` | user-service/src/modules/user/user.repository.ts:6-25 | after a new email is inserted, that email finds the new user and every other email's lookup is unchanged |
| `AuthSvc.Issue` | user-service/src/modules/auth/auth.service.ts:29-37 | the returned user carries the stored uuid and email only (no hash), and the token is `sign(uuid, email)` |
| `AuthSvc.LoginOutcome` | user-service/src/modules/auth/auth.service.ts:40-65 | succeeds iff the email is stored and the password verifies against its hash; every failure is exactly `Invalid credentials`; on success the user and token belong to that stored email |
| `AuthSvc.RegisterOutcome` | user-service/src/modules/auth/auth.service.ts:13-38 | a stored email gives `User with this email already exists` and an unchanged table; success iff the email and uuid are new, and then exactly one user with `hash(password, salt)` is added and the token is signed for it |
| `AuthSvc.AuthService.Register` | user-service/src/modules/auth/auth.service.ts:13-38 | result and new table are those of `RegisterOutcome`; the hasher is not called when the email exists, and is called once with the password otherwise |
| `AuthSvc.AuthService.Login` | user-service/src/modules/auth/auth.service.ts:40-65 | returns `LoginOutcome` of the current table and never modifies the store |
| `AuthSvc.RegisterThenLogin` | user-service/src/modules/auth/auth.service.ts:13-65 | with a hasher whose hashes verify, logging in right after a successful registration returns the same identity and token |
| `AuthSvc.RegisterKeepsOtherLogins` | user-service/src/modules/auth/auth.service.ts:13-38 | a registration never changes the login answer for any other email |
| `AuthSvc.LoginErrorsIndistinguishable` | user-service/src/modules/auth/auth.service.ts:44-53 | an unknown email and a wrong password for a stored email give the identical `Invalid credentials` answer |
| `AuthHandlers.RegisterReply` | user-service/src/modules/auth/auth.controller.ts:14-43 | 201 with the result iff returned; 409 `USER_EXISTS` iff the duplicate-email error; any other `Error` gives 400 `REGISTRATION_ERROR` with its message; a non-`Error` gives `Registration failed` |
| `AuthHandlers.LoginReply` | user-service/src/modules/auth/auth.controller.ts:48-66 | 200 iff returned; any throw gives 401 `INVALID_CREDENTIALS` with the fixed message `Invalid credentials` |
| `AuthHandlers.AuthController.Register` | user-service/src/modules/auth/auth.controller.ts:12-44 | the table changes as `RegisterOutcome` says and the reply is `RegisterReply` of its result |
| `AuthHandlers.AuthController.Login` | user-service/src/modules/auth/auth.controller.ts:46-67 | the reply is `LoginReply` of `LoginOutcome` |
| `AuthHandlers.DuplicateRegistrationAnswers409` | user-service/src/modules/auth/auth.controller.ts:25-33 | registering a stored email leaves the table unchanged and answers 409 `USER_EXISTS` |
| `TokenTrust.LoginTokenOpensGate` | user-service/src/modules/auth/jwt.ts:11-20 | when both services share the secret, a login token sent as `Bearer <token>` passes the gate with the user's uuid and email, and the todo handlers act for that uuid iff it is non-empty |
| `TokenTrust.ListRoute` | todo-service/src/modules/todos/todo.routes.ts:11-17 | behind `requireAuth`, a denied request gets the gate's reply; a request that passes gets the listing of the subject the gate attached |

## Left out

- Express wiring (`app.ts`, the routers, helmet, CORS, body parsing, the 404 route) is not part of this model. The only route modelled is `TokenTrust.ListRoute`, which puts the gate in front of the listing route (todo.routes.ts:17). The create, update and delete routes behind `router.use(requireAuth)` are not composed with the gate.
- Prisma is replaced by in-memory tables. Auto-increment ids come from a counter. Generated uuids and `createdAt` timestamps are parameters (`uuid`, `now`, `salt`). The store's error texts are stand-ins: `RecordToUpdateNotFound`, `RecordToDeleteNotFound` and `UniqueConstraintFailed`.
- The `updatedAt` column is not modelled. Its schema is not part of this model.
- bcrypt and jsonwebtoken are function values: `Crypto.hash`, `Crypto.verify`, `Crypto.sign`, and the gate's `Verifier`. Their internals, token expiry and wall-clock time are not modelled. Round-trip behaviour is taken as a hypothesis (`HashVerifies`, `SharedSecret`).
- The `password` module and `auth.validators` are not part of this model. Neither is `validateRequest`, a thin wrapper that answers 400 when a schema rejects.
- Concurrency is not modelled. Each service call is atomic and sequential, so the race windows between lookup and act, and at duplicate-email registration, are outside the model.
- Configuration loading (`env.ts`, the 32-character secret minimum) and all logging calls are not modelled.
- `TodoHandlers.TodoController.UpdateTodo`: `Number(id)` is taken to be an integer already. Its NaN and fractional results are not modelled.
- `TodoHandlers.TodoController.DeleteTodo`: the same `Number(id)` conversion (todo.controller.ts:148) is taken to be an integer already. Its NaN and fractional results are not modelled.
- `TodoHandlers.TodoController.UpdateTodo`: content is always a string, following the service signature. The effect of `undefined` content on the store is not modelled.
- The controllers' 400/500 paths for a failing store appear only in the decision functions (`CreateTodoReply`, `GetUserTodosReply`, …). The in-memory store never fails.
- `ErrorHandling.HandleError`: a NaN status code, which JavaScript also treats as falsy, is not modelled. Statuses are integers.
- `TodoRepo.SortNewestFirst`: the store leaves the order of rows with equal `createdAt` unspecified. The model fixes one such order, and its contract states only the descending order and the permutation.
- Todo uuids are not proved unique. The model relies on the generator for that, and nothing in the core depends on it.
