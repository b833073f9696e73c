# Todo list router, modelled in Dafny

The repository is a small REST API for a todo list. Its only logic is in the
todo router: four handlers that create a todo, list all todos, update one
todo (text, position, completion), and delete one todo. Each todo is a
record `{id, value, order, doneAt}`. `order` fixes the display position,
highest first.

The model treats the document collection as an in-memory store. It is the
class `TodosRouter.TodoStore`, whose field `todos` is the sequence of records
in insertion order. The store gives every inserted record a fresh id: ids are
distinct and below `nextId`. Each handler is one atomic step on that store.
It returns `Created(todo)` / `Invalid` for a create, and `Ok` / `NotFound` for
an update or a delete, instead of an HTTP response.

- `todos.dfy` (module `Todos`): the record and the creation rule for its
  text. It also holds the read-only queries the handlers issue: the first
  record that passes a filter (`findById`, `findOne({ order })`), the largest order (`findOne().sort('-order')`), the
  order a new todo gets, and the whole collection sorted by descending order
  (`find().sort('-order')`).
- `todos_router.dfy` (module `TodosRouter`): the store class and its four
  handlers. Create, Update and Delete are methods that change `todos`; List is
  a function. The new state after an update is given by the function
  `AfterUpdate`. It is the record patched in place, plus the order swap with
  the record that held the requested order. Lemmas state the swap, the
  free-order move, the order-0 and same-order edge cases, the field rules,
  and that orders and ids stay unique. `ReorderScenario` walks an
  example: two creates, a reorder, a listing, then deletes that return
  not-found the second time.

How request bodies are represented:
- The create body's `value` is an `Option<string>`. `None` means missing or
  not a string.
- The update's `value` is a string; the empty string means "not supplied".
- The update's `order` is an integer; `0` means "not supplied". This is the
  router's `if (order)` test (routes/todos.router.js:68).
- The update's `done` is an `Option<bool>`. A `done: null` is `Some(false)`:
  the router tests `done !== undefined` (routes/todos.router.js:76), so null
  clears `doneAt`.
- The instant `new Date()` is passed in as the parameter `now`.

## Model

| member | source | states |
|---|---|---|
| `Todos.IsValidValue` | routes/todos.router.js:7-9 | A missing or non-string value, the empty string, and a string over 50 characters are rejected; every string of 1 to 50 characters is accepted |
| `Todos.MaxOrder` | routes/todos.router.js:28 | `None` exactly when the collection is empty. Otherwise an order some record holds, and no record's order is larger |
| `Todos.NextOrder` | routes/todos.router.js:28-31 | 1 for an empty collection. Otherwise one more than an order some record holds, and larger than every existing order |
| `Todos.FindFirst` | routes/todos.router.js:60-70 | The first position whose record passes the filter: no earlier record passes it. `None` exactly when no record passes it. `IndexOfId` (`findById`, lines 60 and 88) and `IndexOfOrder` (`findOne({ order })`, line 69) are this query with the two filters |
| `Todos.SortByOrderDesc` | routes/todos.router.js:48 | The result has non-increasing orders from first to last, and it is a permutation (same multiset) of the collection |
| `Todos.InsertByOrder` | routes/todos.router.js:48 | Inserting into a sequence sorted by descending order keeps it sorted. The result holds the old records plus the new one |
| `Todos.InsertKeepsStrict` | routes/todos.router.js:48 | Inserting a record whose order no other record holds keeps a strictly descending sequence strictly descending |
| `Todos.ListStrictWhenUnique` | routes/todos.router.js:48 | When orders are unique, the sorted collection is strictly descending by order |
| `TodosRouter.TodoStore.List` | routes/todos.router.js:46-52 | The listing is sorted by descending order and is a permutation of the store's records; when orders are unique it is strictly descending |
| `TodosRouter.TodoStore.Create` | routes/todos.router.js:7-43 | A missing value, a non-string value, or one outside 1..50 characters gives `Invalid` and leaves the store as it was. Otherwise exactly one record is appended: fresh id, the given value, order `NextOrder(old todos)`, no `doneAt`. Every old record is unchanged, and unique orders stay unique |
| `TodosRouter.CreatedListedFirst` | routes/todos.router.js:28-35 | A newly created todo comes first in the listing, because its order is above every other |
| `TodosRouter.CreateKeepsUnique` | routes/todos.router.js:28-35 | Appending a record with the next order and a fresh id keeps orders unique and ids unique |
| `TodosRouter.Patched` | routes/todos.router.js:65-78 | The updated record keeps its id. Its value is replaced only by a non-empty supplied value, and its order only by a non-zero one. `doneAt` becomes `now` for `done == true`, is cleared for `done == false`, and is untouched when `done` is absent |
| `TodosRouter.AfterUpdate` | routes/todos.router.js:65-80 | The collection after the update of one record. It has the same length; what it changes is stated by the lemmas below |
| `TodosRouter.TodoStore.Update` | routes/todos.router.js:55-83 | Unknown id: `NotFound`, store unchanged. Known id: `Ok`, and the collection is `AfterUpdate` of the old one at that record's position. Ids stay distinct and unique orders stay unique |
| `TodosRouter.UpdateKeepsIds` | routes/todos.router.js:65-80 | No update changes any record's id, so distinct ids stay distinct |
| `TodosRouter.UpdateFields` | routes/todos.router.js:65-78 | `value` is replaced only when the supplied one is non-empty. `doneAt` becomes `now` for `done == true`, is cleared for `done == false`, and is untouched when `done` is absent |
| `TodosRouter.UpdateSwapsOrders` | routes/todos.router.js:68-75 | With unique orders: when another record holds the requested order, the two records exchange orders and every third record is unchanged |
| `TodosRouter.UpdateToFreeOrder` | routes/todos.router.js:68-75 | When no record holds the requested non-zero order, only the updated record changes, and it takes that order |
| `TodosRouter.UpdateWithoutOrder` | routes/todos.router.js:68 | A requested order of 0 leaves every order as it was and every other record untouched |
| `TodosRouter.UpdateToOwnOrder` | routes/todos.router.js:68-75 | Requesting the order the record already has changes no order and no other record, even when orders repeat |
| `TodosRouter.UpdateKeepsOrdersUnique` | routes/todos.router.js:68-75 | Every update keeps unique orders unique |
| `TodosRouter.RemoveAt` | routes/todos.router.js:92 | Removing position `i` shifts the later records down by one. The result holds every old record but the removed one, and no other |
| `TodosRouter.TodoStore.Delete` | routes/todos.router.js:86-94 | Unknown id: `NotFound`, store unchanged. Known id: `Ok`, exactly that record is removed, its id is no longer found, and unique orders stay unique |
| `TodosRouter.DeleteKeepsUnique` | routes/todos.router.js:92 | Removing a record keeps ids and orders unique |
| `TodosRouter.DeleteForgetsId` | routes/todos.router.js:88-93 | After the removal, the deleted id is not found: a later update or delete of it gives `NotFound` |
| `TodosRouter.DeletedNotListed` | routes/todos.router.js:86-94 | After a delete, no record in the listing carries the deleted id |
| `TodosRouter.DeleteKeepsOthers` | routes/todos.router.js:92 | After the removal, any other id is found exactly when it was found before |

## Left out

- `app.js` as a whole. It starts the HTTP server, parses bodies, serves
  static files, logs requests and mounts the router; all of that is I/O.
- The database and its driver. The collection is a sequence in insertion
  order, and queries are the functions of `Todos`. The store's id counter
  stands in for the ids the database generates. The schema files are not
  part of this model, so any checks the schema itself makes on save are not
  modelled.
- HTTP status codes, JSON bodies and the error-handling middleware. That
  middleware is not part of this model. A failed validation and the dead
  `if (!value)` branch both appear as `Invalid`; a missing id appears as
  `NotFound`.
- Details of the validation library beyond "a string of 1 to 50 characters".
  The model does not cover its rejection of unknown body keys or how it
  counts characters (UTF-16 code units). A Dafny `char` stands for one unit.
- General JavaScript truthiness of the update body. A value that is not a
  string, or `done` given as something other than a boolean or null, is not
  modelled. Nor is a non-integer `order`, `NaN`, or an id that is not a valid
  database id (that id makes the lookup throw, and the update and delete
  handlers do not catch it).
- Concurrency. Two creates can read the same largest order. The update's swap
  is spread over two separate saves. Each handler is modelled as one atomic
  step, so duplicate orders only arise if the collection already holds them.
  For that reason, unique orders is a property each operation preserves. It
  is not part of `Valid()`.
- The clock. `new Date()` is the parameter `now`.
- The order among records with equal `order` in a listing: the database
  leaves it open. `SortByOrderDesc` picks one such order.
- No length rule for an updated `value`. The update
  handler accepts any non-empty value, so values longer than 50 characters can
  enter the store this way. Orders are not kept positive either: a negative
  requested order is accepted.
- `order` is a JavaScript number, exact only below 2^53. The model's unbounded
  `int` does not capture the rounding of `order + 1` above that, where a create
  can repeat an order. So `NextOrder` and `Create`'s uniqueness guarantee hold
  for the unbounded integers of the model, not for orders of 2^53 and more.
