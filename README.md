# Task manager backend: request-handling rules in Dafny

This project models the request-handling core of a small task-management
web application's REST backend:

- the **token middleware** (`authMiddleware`), which reads the
  `Authorization` header, takes the second space-separated field as the
  token, and either answers 401 or sets `req.user` and calls `next()`;
- the **auth router** (`/register`, `/login`) over a user collection keyed
  by email, with bcrypt and jsonwebtoken kept as uninterpreted functions;
- the **task router** (GET `/`, POST `/`, PUT `/:id`, PATCH `/:id/status`,
  DELETE `/:id`) over a task collection in which every task belongs to one
  user and is reachable only through requests authenticated as that user.

The MongoDB collections are in-memory maps held by two classes
(`TaskRoutes.TaskTable`, `AuthRoutes.UserTable`); each route handler is a
method that returns the status code and body the handler sends and updates
the map as the handler's database calls would. A failing database call is
the parameter `storeFails`; the current time is the parameter `now`; the
random salt bcrypt draws is the parameter `salt`. bcrypt's `hash` and
`compare` and jsonwebtoken's `sign` are functions given to the user table
when it is built, and `jwt.verify` is a function from token to `Verdict`;
a `None` result stands for the library call throwing.

Files:

- `js.dfy` (module `Js`): absent request fields, JavaScript truthiness,
  `split` on one character and its inverse `join`, with both round trips.
- `models.dfy` (module `Models`): the user and task documents.
- `middleware.dfy` (module `AuthMiddleware`): token extraction, the
  verification outcome mapped to a reply, and the effect on the request.
- `auth_routes.dfy` (module `AuthRoutes`): registration and login.
- `task_query.dfy` (module `TaskQuery`): the `findOne` ownership test and
  the sorted `find` query.
- `task_routes.dfy` (module `TaskRoutes`): the five task handlers.

Behaviour of the code worth noting:

- The create route never sets `status`; the model leaves it `None`.
- The token is field 1 of `split(' ')`, split on one space only; an empty
  second field ("Bearer  x") is rejected like a missing one, and the
  scheme word is never checked.
- The signed token payload is the whole stored user record, password hash
  included (`sign` is applied to the `User`).
- A duplicate registration answers 400.
- Registration stores the user before signing the token, so a signing
  failure answers 500 'Error creating user' with the user already stored.

## Model

| member | source | states |
|---|---|---|
| `Js.Split` | backend/middleware/auth.js:10 | `split(' ')` always yields at least one field and no field contains the separator |
| `Js.SplitWithoutSeparator` | backend/middleware/auth.js:10 | a header without a space is a single field |
| `Js.SplitAtFirstSeparator` | backend/middleware/auth.js:10 | the text before the first space is the first field and the rest is split on its own |
| `Js.SplitJoin` | backend/middleware/auth.js:10 | splitting the join of space-free fields gives those fields back |
| `Js.JoinSplit` | backend/middleware/auth.js:10 | joining the fields of a split gives the header back |
| `AuthMiddleware.ExtractToken` | backend/middleware/auth.js:7-11 | an extracted token is non-empty and contains no space |
| `AuthMiddleware.TokenIsSecondField` | backend/middleware/auth.js:10-11 | for `<scheme> <token> ...` the token is extracted, whatever the scheme word is |
| `AuthMiddleware.TokenComesFromHeader` | backend/middleware/auth.js:10-11 | every extracted token is the second space-separated field of a present header |
| `AuthMiddleware.SchemeAloneIsRejected` | backend/middleware/auth.js:10-11 | a header holding one word ("Bearer") gets 401 'No token, authorization denied' |
| `AuthMiddleware.DoubleSpaceIsRejected` | backend/middleware/auth.js:10-11 | "Bearer  x" (two spaces) gets 401 'No token, authorization denied' |
| `AuthMiddleware.Authenticate` | backend/middleware/auth.js:7-23 | accepted exactly when a token is extracted and verifies, with the decoded user; every rejection is 401: no token, 'Token has expired' for `TokenExpiredError`, 'Token is not valid' exactly for any other error |
| `AuthMiddleware.Guard` | backend/middleware/auth.js:6-24 | on acceptance `req.user` is the decoded user, `next()` runs exactly once and nothing is sent; on rejection the 401 reply is sent and the request is untouched |
| `AuthRoutes.UserTable.Register` | backend/routes/auth.js:7-24 | a known email gets 400 'User already exists' and nothing stored; a store or hash failure gets 500 'Error creating user' and nothing stored; otherwise exactly one user is added, under an id no stored user has, with `hash(password, salt)` as its password; the reply is the token signed for that user, or 500 'Error creating user' (user still stored) when signing throws |
| `AuthRoutes.UserTable.Login` | backend/routes/auth.js:26-45 | 'Invalid email or password' (400) exactly for an unknown email or a failing compare, the same reply for both; a token exactly when the password matches and signing succeeds, and then it is the token signed for the stored user; any other outcome is 500 'Error logging in'; the table is not changed |
| `AuthRoutes.RegisterTwice` | backend/routes/auth.js:11-17 | a second registration of a stored email is refused; the table then holds exactly the user the first call stored (or the one already there) |
| `AuthRoutes.RegisterThenLogin` | backend/routes/auth.js:16-41 | after registering, logging in with the same password yields the token signed for the stored user, whenever bcrypt confirms a password against its own hash |
| `TaskQuery.InsertByStart` | backend/routes/task.js:9 | the result is the input with exactly one copy of the new task added (as multisets) |
| `TaskQuery.InsertKeepsOrder` | backend/routes/task.js:9 | insertion into a list in ascending start-time order keeps that order |
| `TaskQuery.InsertKeepsIdsDistinct` | backend/routes/task.js:9 | inserting a task with a new id keeps all ids distinct |
| `TaskQuery.FindSorted` | backend/routes/task.js:9 | the query result is in ascending start-time order, holds no id twice, and holds exactly the user's stored tasks |
| `TaskRoutes.ParseStatus` | backend/routes/task.js:79-81 | a status is rejected exactly when it is neither 'pending' nor 'finished'; an accepted value is the name of the status it yields |
| `TaskRoutes.TaskTable.List` | backend/routes/task.js:7-18 | 404 'No tasks found' exactly when the user owns no task, whatever other users own; otherwise 200 with exactly the user's tasks, each once, by ascending start time; a store failure is 500 'Server error' |
| `TaskRoutes.TaskTable.Create` | backend/routes/task.js:21-43 | a falsy title, start time, end time or priority (absent, empty, 0) gets 400 and no change; otherwise exactly one new task with the request's four fields, owned by the caller, under a fresh id, every other task unchanged, reply 201 with the task |
| `TaskRoutes.TaskTable.Update` | backend/routes/task.js:46-73 | 400 on a falsy field, 404 'Task not found' with no change when the id is absent or another user's; otherwise the four fields of that one task are replaced and its status, owner and every other task are unchanged |
| `TaskRoutes.TaskTable.SetStatus` | backend/routes/task.js:76-102 | a value other than 'pending' or 'finished' gets 400 before any lookup, even for a missing id; absent or foreign id gets 404 with no change; otherwise the status is set, and for 'finished' the end time becomes `now`, for 'pending' it stays |
| `TaskRoutes.TaskTable.Delete` | backend/routes/task.js:105-118 | absent or foreign id gets 404 with no change; otherwise exactly that task is removed and sent back |
| `TaskRoutes.CreateThenList` | backend/routes/task.js:9-38 | a created task, with the request's title, start time, end time and priority and the caller as owner, is among the tasks the list route sends to the caller |
| `TaskRoutes.DeleteTwice` | backend/routes/task.js:107-111 | deleting the same id a second time gets 404 'Task not found' |
| `TaskRoutes.ForeignTaskIsHidden` | backend/routes/task.js:54-111 | update, finishing and delete of another user's task all get 404 and change nothing |

## Left out

- The frontend (pages, navigation bar, routing, toast demo) and its
  password-confirmation check: view code, not request handling.
- `backend/server.js`: Express wiring, CORS, environment loading and the
  database connection.
- The dashboard statistics: the dashboard page is a static stub with no
  computation to model.
- The schema files (backend/model/taskModel.js and backend/model/userModel.js)
  are not part of this model: no status default, priority range, type
  casting or unique-email index is assumed. The user table is keyed by
  email, which the register route's lookup keeps unique.
- bcrypt and jsonwebtoken internals (salting, hashing, signing, expiry):
  uninterpreted functions and outcomes.
- `AuthRoutes.UserTable.Register`: states that the stored password is
  `hash(password, salt)`; that this differs from the plaintext is bcrypt's
  property and is not assumed.
- Request bodies with values of other JSON types (numbers sent as strings,
  booleans, `NaN`), and register or login bodies with missing fields:
  string fields are strings, numeric fields are integers or absent.
- An `:id` that is not a valid ObjectId makes the lookup throw (500); the
  model covers that only through `storeFails`. Ids are natural numbers
  handed out by a counter.
- `TaskRoutes.TaskTable.List`: the order among tasks with equal start times
  is left unspecified, as the database leaves it.
- A token whose payload has no `user`: `req.user` would be undefined and
  the task routes would fail on `req.user._id`; tokens are only ever signed
  with a user here.
- Concurrency and asynchrony: overlapping requests, last-write-wins between
  clients, and a save that fails after the document was changed in memory
  (its reply is the same 500 with nothing stored).
- Logging (`console.error`) and real clocks: time is the integer `now`.
