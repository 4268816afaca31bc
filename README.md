# To-do task store and client, modelled in Dafny

The system is a single-list to-do application. Its server keeps an ordered
list of tasks (`id`, `task`, `completed`, `createdAt`) in memory, together
with a `nextId` counter, and serves four handlers under `/api/todos`:
list (GET), create (POST), update (PUT `/:id`) and delete (DELETE `/:id`).
Every reply is an HTTP status plus a `{success, data?, error?}` envelope.
The client (`todoService`) calls those endpoints. Its `checkResponse`
turns a non-OK HTTP status, or an envelope with `success = false`, into a
thrown error. Otherwise each call hands back the envelope's `data`
(`deleteTask` hands back nothing).

The project is organised as follows.

- `wrappers.dfy` (`Wrappers`): `Option`, for JSON fields that may be absent.
- `text.dfy` (`Text`): ECMAScript `String.prototype.trim`. It strips the
  WhiteSpace and LineTerminator code points from both ends. The lemmas
  prove that it removes exactly the blank margins and nothing else.
- `api.dfy` (`Api`): the `Task` record, the envelope and a handler's reply.
- `store.dfy` (`Store`): the four handlers as functions from the store's
  state to its new state and reply. It also holds the store invariant
  (ids below `nextId`, strictly increasing in list order, texts trimmed)
  and runs of requests. Over a run, ids are handed out consecutively and
  never reused. The list after a run holds exactly the surviving records.
  Every listed record was held at the start or created by the run.
  Every record whose id the run never deletes is still listed. A deleted
  record is never listed again. The invariant keeps the list in id order,
  which is creation order.
- `server.dfy` (`Server`): class `TaskStore`. It has the `tasks` and
  `nextId` fields that the handlers update in place, and a
  `findIndex`-style scan. Each method is proved to have exactly the effect
  and reply of the matching `Store` function, and to keep the invariant.
- `decimal.dfy` (`Decimal`): decimal rendering of the HTTP status in the
  client's error message, with the read-back lemma.
- `todo_service.dfy` (`TodoService`): `checkResponse` and the four service
  calls. Each call is a function of the response metadata and the parsed
  envelope.
- `end_to_end.dfy` (`EndToEnd`): what each client call settles with when
  the server handler answered it. A refused create or an unknown id
  reaches the client as `HTTP 400: …` or `HTTP 404: …`. The server's own
  error text is never what the client reports, because the status check
  comes first.

The error texts are the ones the handlers send: `Campo obrigatório` and
`Tarefa não encontrada`. A task's text is non-empty when it is created,
but update trims a blank patch to `""` and stores it. The model does the same (see
`Store.UpdateStoresBlankAsEmpty`); the invariant it keeps is that every
text is trimmed.

Inputs that the code takes from the environment become parameters:
- the creation timestamp (`new Date().toISOString()`) is `now`;
- the request body fields are `Option` values;
- the parsed `:id` is an `Option<int>`, where `None` stands for NaN;
- the HTTP status text is `statusText`.

## Model

| member | source | states |
|---|---|---|
| `Text.Trim` | server.js:35 | the result is trimmed, and it is empty exactly when the input is blank |
| `Text.TrimIsSliceBetweenBlanks` | server.js:35 | what trim keeps is a contiguous slice of the input with a blank prefix before it and a blank suffix after it |
| `Text.TrimOfPadded` | server.js:35 | trimming `a + m + b`, where `a` and `b` are blank and `m` is trimmed, gives exactly `m` |
| `Text.TrimIdempotent` | server.js:60 | trimming already-trimmed text changes nothing |
| `Store.Initial` | server.js:11-12 | the store starts with no tasks and `nextId = 1`, and this state satisfies the invariant |
| `Store.IndexOf` | server.js:75 | `findIndex`: -1 exactly when no record has the id; otherwise the position of the first record with that id |
| `Store.ApplyPatch` | server.js:59-65 | a patch keeps `id` and `createdAt`; an absent `task` keeps the text and a present one stores it trimmed; an absent `completed` keeps the flag; a trimmed text stays trimmed |
| `Store.List` | server.js:15-20 | GET never fails; it answers 200 with the list exactly as stored and changes nothing |
| `Store.Create` | server.js:23-46 | missing or blank text gives 400 `Campo obrigatório` with tasks and `nextId` unchanged; otherwise exactly one record is appended and returned with 201 in an envelope with no error, with id equal to the old `nextId`, the trimmed non-empty text, `completed = false` and the given time; `nextId` grows by 1; the invariant is kept |
| `Store.Update` | server.js:49-71 | an unknown id gives 404 with the state unchanged; otherwise only the found record changes, to its patch; length, order, the other records and `nextId` stay the same; the reply is 200 with the record as stored; the invariant is kept |
| `Store.Delete` | server.js:74-90 | an unknown id gives 404 with the state unchanged; otherwise exactly the found record is cut out, the others keep their order, `nextId` stays the same, and the removed record is returned with 200; the invariant is kept |
| `Store.OnlyMatch` | server.js:50 | in a valid state no record other than the one found carries the looked-up id |
| `Store.DeleteTwice` | server.js:75-89 | after a successful delete, deleting the same id again answers 404 and changes nothing |
| `Store.UpdateStoresBlankAsEmpty` | server.js:59-61 | an update with whitespace-only text on a present id is not refused; it stores and returns the empty text |
| `Store.Run` | server.js:11-90 | any sequence of requests from a valid state leaves a valid state |
| `Store.CreatedIdsConsecutive` | server.js:34 | over any run of requests, the created ids are `nextId`, `nextId + 1`, … in order, and the final `nextId` is one past the last; deletes in between do not change this |
| `Store.IdsNeverReused` | server.js:34 | from a valid state, created ids are strictly increasing and differ from every id the starting state held, including ids of records later deleted |
| `Store.SurvivorsAccountedFor` | server.js:11-90 | every record listed after a run is one the starting state held or one the run created, with the same id and creation time |
| `Store.HeldRecordsSurvive` | server.js:11-90 | a record of the starting state that no request of a run updates or deletes is still listed after the run, unchanged |
| `Store.RunConcat` | server.js:11-90 | handling two runs of requests one after the other is handling their concatenation |
| `Store.CreatedRecordsSurvive` | server.js:33-40 | a record created by a successful POST that no later request updates or deletes is still listed at the end of the run, exactly as created; requests before the POST do not matter |
| `Store.StepKeepsKey` | server.js:49-89 | any request other than a DELETE of a record's id keeps that record's id and creation time listed; an update changes neither |
| `Store.NotDeletedKeyListed` | server.js:11-90 | a record of the starting state whose id no request of the run deletes is still listed after the run, with its id and creation time, however often it was updated |
| `Store.CreatedKeyListed` | server.js:33-89 | a record created by a successful POST whose id no later request deletes is still listed at the end of the run, with its id and creation time |
| `Store.DeletedNeverListedAgain` | server.js:74-90 | after a successful delete from a valid state, no record with that id is listed again, whatever requests follow |
| `Store.BuyMilk` | server.js:33-45 | `POST {task: "  buy milk  "}` on a fresh store answers 201 with record 1, text `buy milk`, `completed = false` |
| `Server.TaskStore.constructor` | server.js:11-12 | a fresh store is the initial state and satisfies the invariant |
| `Server.TaskStore.FindIndex` | server.js:75 | the scan returns `Store.IndexOf` of the current list: -1, or a position holding the id |
| `Server.TaskStore.List` | server.js:15-20 | answers 200 with the current list and agrees with `Store.List` |
| `Server.TaskStore.Create` | server.js:23-46 | the new fields and the reply are those of `Store.Create` on the old fields; the invariant is kept |
| `Server.TaskStore.Update` | server.js:49-71 | the new fields and the reply are those of `Store.Update` on the old fields; the invariant is kept |
| `Server.TaskStore.Delete` | server.js:74-90 | the new fields and the reply are those of `Store.Delete` on the old fields; the invariant is kept |
| `Decimal.Show` | src/services/todoService.ts:16 | the status renders as a non-empty string of digits with no leading zero |
| `Decimal.ValueOfShow` | src/services/todoService.ts:16 | reading the rendered status back gives the status |
| `Decimal.ShowInjective` | src/services/todoService.ts:16 | different statuses render differently |
| `TodoService.CheckResponse` | src/services/todoService.ts:14-22 | no error exactly when the response is OK and `success` holds; a non-OK response gives `HTTP <status>: <statusText>` whatever the envelope says; an OK response with `success = false` gives the envelope's error, or `Erro na API` when it is absent or empty; an error message is never empty |
| `TodoService.StatusDecidesFirst` | src/services/todoService.ts:15-21 | with a non-OK status the check gives the same result for every envelope |
| `TodoService.HttpErrorNamesStatus` | src/services/todoService.ts:16 | two HTTP error messages with the same status text are equal only when the statuses are equal |
| `TodoService.GetTasks` | src/services/todoService.ts:25-34 | resolves exactly when the check passes, with the envelope's `data`; otherwise rejects with the check's message |
| `TodoService.CreateTask` | src/services/todoService.ts:36-48 | resolves exactly when the check passes, with the envelope's `data`; otherwise rejects with the check's message |
| `TodoService.UpdateTask` | src/services/todoService.ts:50-62 | resolves exactly when the check passes, with the envelope's `data`; otherwise rejects with the check's message |
| `TodoService.DeleteTask` | src/services/todoService.ts:64-74 | resolves with no payload exactly when the check passes; otherwise rejects with the check's message |
| `EndToEnd.Received` | src/services/todoService.ts:15 | `response.ok` holds exactly for statuses 200 to 299, and the status is passed on unchanged |
| `EndToEnd.ListReachesClient` | src/services/todoService.ts:25-34 | `getTasks` on a GET reply resolves with the stored list |
| `EndToEnd.CreateReachesClient` | src/services/todoService.ts:36-48 | `createTask` on a successful POST resolves with the record now last in the list; on a refused POST it rejects with `HTTP 400: <statusText>` |
| `EndToEnd.UpdateReachesClient` | src/services/todoService.ts:50-62 | `updateTask` resolves with the record as now stored, or rejects with `HTTP 404: <statusText>` for an unknown id |
| `EndToEnd.DeleteReachesClient` | src/services/todoService.ts:64-74 | `deleteTask` resolves with no payload although the reply carries the deleted record, or rejects with `HTTP 404: <statusText>` for an unknown id |

## Left out

- Express, `cors()`, `express.json()` and `app.listen` (server.js:1-8, 92-94): framework and network plumbing.
- `_worker.js`: it delegates to an asset-serving library whose code is not part of this model.
- `src/router/index.ts`: static route configuration with no behaviour.
- `fetch`, `response.json()`, `JSON.stringify` and the `API_BASE` selection (src/services/todoService.ts:9-12): network I/O and build configuration. Each service call is a function of the response it got instead.
- Each service call reads the body with `response.json()` before `checkResponse` runs (src/services/todoService.ts:31-32, 45-46, 59-60, 72-73). A body that is not JSON makes the call reject with a parse error before the status is looked at. An example is the HTML error page Express sends when `trim` throws on a PUT. The model starts from a parsed envelope, so its "the status decides first" result holds only for JSON bodies.
- JavaScript strings are sequences of UTF-16 code units, while a Dafny `char` is a Unicode scalar value. Lone surrogates cannot be represented. Trim is unaffected, because every code point it strips lies in the Basic Multilingual Plane.
- The clock read `new Date().toISOString()` (server.js:37): a parameter `now`.
- `parseInt` on the `:id` path segment (server.js:50, 75): the id arrives already parsed, with NaN as `None`.
- JavaScript coercions on the request body are not modelled. In a POST, a falsy non-string `task` (`0`, `false`, `null`) is refused with 400, and a truthy non-string `task` throws a TypeError, which Express answers with 500. In a PUT, any `task` that is present and not a string (`null`, `0`, `false`, a number, an object) throws a TypeError and gets 500. `Boolean(...)` turns any `completed` value into a flag. The model takes `task` as an optional string and `completed` as an optional boolean.
- Server.TaskStore.Update: the code mutates the found record object in place, and the reply serialises that same object. The model replaces the list element with the patched value. No other reference to a record outlives a handler, so the stored and returned values agree, which the contract states.
- Store.Create: ids are JavaScript Numbers. Once `nextId` reaches 2^53 (past `Number.MAX_SAFE_INTEGER`), `nextId++` no longer advances, so every later create repeats id 2^53 and the id ordering breaks. The model counts with unbounded integers. Its id results (`Store.Create`'s `nextId + 1`, `Store.Run`, `Store.CreatedIdsConsecutive`, `Store.IdsNeverReused`) therefore describe the server only while fewer than 2^53 - 1 tasks have been created.
- Concurrency: requests are handled one at a time to completion, as in the single-threaded server. Interleavings are not modelled.
- The HTTP status text comes from the transport. It is a parameter, not a fixed reason phrase.
