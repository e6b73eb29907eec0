# Result commands: a Dafny model

This project models the command side of the Result resource of a PHP/Symfony
REST API: the `deleteAction`, `postAction` and `putAction` of
`ApiResultsCommandController`, and the `Result` entity they create, edit and
remove. A Result is an integer score that belongs to a user and has a date.

Each action is a short chain of checks, and the order of those checks is what
the model captures:

- **delete**: logged in (401), admin (403), lookup (404), then remove (204).
  A non-admin gets 403 even for an id that does not exist.
- **post**: logged in (401), admin (403), `result`/`user`/`date` all present
  and non-null (422), the user exists (400), then insert under a fresh id (201).
- **put**: logged in (401), lookup (404), owner or admin (403), then a
  partial update. The user is checked first (400), then the value and the
  date are set, each only when the body carries it (209). A missing id gives
  404 even to a caller who would be refused.

Every failure happens before the database is written, so every failure
leaves it unchanged.

Modules:

- `Wrappers` (`wrappers.dfy`): `Option`, for a body field that is absent or null.
- `Entity` (`entity.dfy`): the mutable `Result` class, with its constructor,
  getters and setters, and `ResultRec`, the value of its four fields at one moment.
- `Commands` (`commands.dfy`): the three actions as functions from a database
  value (`Db`: results by id, existing user ids, next identity value) to an
  outcome and a new database. Their contracts state the check order, the
  outcomes and the exact change to the database. Lemmas relate several calls.
- `History` (`history.dfy`): requests handled in sequence. Lemmas by induction
  show what the checks guarantee over any number of requests.
- `Controller` (`controller.dfy`): the class `ResultStore`, which holds the
  `Result` objects in a map. Its action methods carry out the same checks:
  put edits the fetched object through its setters, and post constructs a
  new object and stores it. Each method is proved to return the outcome, and
  leave the abstract database, that the matching `Commands` function gives.

Abstractions:

- The security layer (`isGranted`, `getUser`) becomes an explicit `Caller`
  value: logged in or not, user id, admin or not.
- The request body is already decoded (`Payload`). A field that is absent
  and a field that is null are both `None`, as PHP's `isset` treats them.
  For put, a body that does not decode is `None`. Such a body carries no
  fields, so the record is left as it was and the answer is still 209.
- The getters `GetId`, `GetResult`, `GetUser` and `GetDate`
  (src/Entity/Result.php:95-128) are modelled as plain reads of the
  fields. The constructor's and the setters' contracts are stated through them.
- Users are represented by their ids. The existing users are a fixed set.
- Dates are opaque values (`Date`). The current time is read in two places.
  The `Result` constructor reads it when no date is given, and the model
  passes it in as a parameter. Date parsing in post and put reads it too
  (see "## Left out").
- Doctrine's IDENTITY generation becomes a counter `nextId` that only grows.
  A new id is positive and above every id handed out before, so a deleted
  id is never reused.

## Model

| member | source | states |
|---|---|---|
| `Entity.Result.constructor` | src/Entity/Result.php:77-90 | a new Result has id 0 and the given value and user; its date is the given date, or the current time when none is given |
| `Entity.Result.SetUser` | src/Entity/Result.php:100-103 | afterwards `GetUser()` returns the new user; id, value and date are unchanged |
| `Entity.Result.SetResult` | src/Entity/Result.php:105-108 | afterwards `GetResult()` returns the new value; id, user and date are unchanged |
| `Entity.Result.SetDate` | src/Entity/Result.php:110-113 | afterwards `GetDate()` returns the new date; id, value and user are unchanged |
| `Commands.StatusCode` | src/Controller/ApiResultsCommandController.php:52-245 | the three success outcomes (201, 209, 204) are exactly the 2xx codes; every failure is a 4xx code |
| `Commands.Delete` | src/Controller/ApiResultsCommandController.php:52-84 | 401 when not logged in; 403 for a non-admin whatever the id; 404 exactly when an admin names a missing id; 204 exactly when an admin names a stored id, and then only that id is removed and every other entry is unchanged; any failure leaves the database unchanged; the database invariant is kept |
| `Commands.Post` | src/Controller/ApiResultsCommandController.php:100-155 | 401, then 403 for non-admins; 422 exactly when an admin's body lacks a field or has a null one; 400 exactly when the body is complete but names a user that does not exist; otherwise 201 with one new entry under the next identity value (positive, not currently stored, and, with the invariant, above every id handed out before), holding the body's value, user and date, and every earlier entry unchanged; failures leave the database unchanged |
| `Commands.Put` | src/Controller/ApiResultsCommandController.php:172-245 | 401 when not logged in; 404 for a missing id before any ownership check; for a stored id, 403 exactly when the caller is neither the result's user nor an admin; 400 exactly when a permitted body names a user that does not exist; otherwise 209 with the same id, each field taken from the body when present and kept when absent, and no other entry changed; failures leave the database unchanged, and so does a body that does not decode (lines 204-205: it carries no fields, yet the answer is 209) |
| `Commands.DeleteIsNotRepeated` | src/Controller/ApiResultsCommandController.php:72-78 | after a successful delete, deleting the same id again answers 404, as does a put of it, and neither changes anything |
| `Commands.PostThenDeleteRestores` | src/Controller/ApiResultsCommandController.php:136-144 | deleting the result a post has just created succeeds and restores the stored results as they were before the post |
| `Commands.DeletedIdIsNotReused` | src/Entity/Result.php:42 | a post after a delete never gives the new result the deleted result's id |
| `Commands.PutIsIdempotent` | src/Controller/ApiResultsCommandController.php:217-238 | repeating a put with the same decoded body (the same parsed date) leaves the database as the first one left it |
| `History.Handle` | src/Controller/ApiResultsCommandInterface.php:14-42 | every action keeps the database invariant (ids match keys, are positive and below the next identity value, and name existing users), never changes the users, changes nothing when it fails, and answers 401 with no change to a caller who is not logged in |
| `History.Replay` | src/Controller/ApiResultsCommandController.php:28-246 | after any sequence of requests the database invariant still holds and the users are the same |
| `History.AnonymousRequestsChangeNothing` | src/Controller/ApiResultsCommandController.php:55-181 | any sequence of requests from callers who are not logged in leaves the database exactly as it was (the first check of delete at 55-61, of post at 103-109 and of put at 175-181) |
| `History.NonAdminsKeepTheIds` | src/Controller/ApiResultsCommandController.php:62-238 | any sequence of requests from non-admin callers leaves the set of stored ids unchanged: the admin checks of delete (62-69) and post (110-117) stop them from deleting or creating, and put (217-238) only edits a stored result |
| `History.HandleSparesOthers` | src/Controller/ApiResultsCommandController.php:191-203 | one request from a non-admin leaves unchanged every result whose user is not the caller |
| `History.OthersResultsAreUntouched` | src/Controller/ApiResultsCommandController.php:194-203 | any sequence of requests from one non-admin user leaves unchanged every result that belonged to another user at the start |
| `Controller.ResultStore.DeleteAction` | src/Controller/ApiResultsCommandController.php:52-84 | the outcome, and the database the stored objects stand for afterwards, are those of `Commands.Delete`; the store invariant is kept; a successful delete drops exactly the object stored under that id, every other id keeps the same object, and a failed one keeps the map as it was |
| `Controller.ResultStore.PostAction` | src/Controller/ApiResultsCommandController.php:100-155 | the outcome and the resulting database are those of `Commands.Post`; on success the map gains exactly one entry, a freshly constructed Result under an id not stored before, and every earlier id keeps the same object; on failure the map is unchanged |
| `Controller.ResultStore.PutAction` | src/Controller/ApiResultsCommandController.php:172-245 | the outcome and the resulting database are those of `Commands.Put`; only the fetched Result object is modified, through its setters, and no other stored object changes |

## Left out

- Response formatting: the format negotiation, error messages, response
  bodies and the `Location` header. The model keeps only the outcome kind,
  the record returned and the status code.
- JSON decoding. Post decodes with exceptions enabled, so a malformed body
  raises an uncaught exception there. That path is not modelled.
- Date parsing. A date string that does not parse raises an uncaught
  exception in both post and put, and is not modelled. Dates arrive already
  parsed.
- The clock in date parsing. Post (src/Controller/ApiResultsCommandController.php:139)
  and put (line 235) parse date strings against the current time. A
  relative string such as "now" or "+1 day" therefore gives a different
  date each time, so the same request body can store different dates. The
  model receives the date already parsed. Its statements about repeated
  requests, `Commands.PutIsIdempotent` among them, hold for the same parsed
  date, not for the same raw body.
- PHP type coercion: `strval` of the value passed to an `int` parameter, and
  the `string`-typed `result` property. The value is modelled as an integer.
- `Entity.Result.constructor`: the PHP defaults are not modelled. The
  default `null` for the user is left out because assigning null to the
  typed `User` property would raise an error, so the model's constructor
  always takes a user. The default `0` for the value is left out because
  every caller passes a value, so the model's constructor always takes one.
- Database-enforced constraints: the unique index on `date` and the
  cascading delete of a user's results. Users are never deleted in this
  model.
- Column ranges. `id` and `result` are `integer` columns
  (src/Entity/Result.php:37-50). A `result` value outside the column's range
  fails when the source flushes to the database. The model's unbounded
  `int` accepts it, so this failure is not modelled.
- Concurrency: two requests never interleave. Last-write-wins between
  concurrent puts is not modelled.
- The commented-out optimistic-locking check in put, and the unused
  password hasher.
- Serialisation (`jsonSerialize`, `__toString`) and the hypermedia
  annotations of the entity.
