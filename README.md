# Task table of the tareas backend, modelled in Dafny

The backend of this task-tracking application exposes five routes under
`/api/tareas` that map directly onto SQL statements against a single table
`tareas(id, nombre, descripcion, estado)`. The cycling route issues two
statements, a SELECT and then an UPDATE; each other route issues one. The only computation is the status
successor used by the status-cycling route, which moves a task through
`pendiente` → `completada` → `cancelada` → `pendiente`.

The project has four modules:

- `Wrappers` (wrappers.dfy): `Option`, used for JavaScript values that may be
  null or undefined (SQL NULL once stored).
- `TaskStatus` (status.dfy): the successor expression
  `estados[(estados.indexOf(actual) + 1) % estados.length]`, with
  `indexOf` modelled by strict equality (a null equals no string) and the
  modulo on a non-negative dividend. It also holds an independent reference
  cycle (`Estado`, `Next`). Lemmas tie the two together and give the three
  transitions, period three, and the fact that distinct statuses have
  distinct successors and none is a fixed point.
- `TaskTable` (table.dfy): the table as a map from `id` to a row. Each statement
  that writes is a function on that map: `InsertRow`, `UpdateWhere`,
  `SetEstadoWhere` and `DeleteWhere`. The two SELECTs are reads of the
  map, in `List` and `CycleStatus`. `CycleRow` is the read-then-write of
  the cycling route. Their contracts state which columns and rows change
  and that the closed set of statuses is preserved. Lemmas relate the
  operations: cycling three times restores the table, an edit commutes with
  a status change of the same row, an edit is idempotent, a delete absorbs
  earlier writes, and a delete undoes an insert.
- `TaskApi` (api.dfy): the class `TaskService`, which holds the table and the
  auto-increment counter. It has one method per route, and each method
  states the response body and the new table for every outcome. `Session`
  runs the end-to-end sequence create, list, cycle, delete, list on a fresh
  table.

Three facts come from MySQL, not from the route code, and the model makes them
explicit assumptions:

- `insertId` is fresh. The counter `nextId` stands for AUTO_INCREMENT, as a
  gap-free counter from 1 (see "Left out"), and the class invariant
  `Valid()` says every stored key is below it.
- The column default of `estado` is `'pendiente'`. This is
  `TaskTable.DefaultEstado`, the value `InsertRow` stores.
- A query that reports an error had no effect on the table. The route code
  only sends the error reply (backend/server.js:76, :104, :127, :138) and
  promises nothing about the table. The model takes every reported failure
  to be a statement that changed nothing.

Each query's `err` becomes a boolean parameter of the method (`fail`, or
`failRead`/`failWrite` for the two queries of the cycling route), because the
driver's failures cannot be derived from anything visible.

The read and the write of the cycling route fail with different messages
(backend/server.js:117, :127): `"Error al obtener estado"` when the read fails
or no row matches, and `"Error al cambiar estado"` when the write fails. The
model keeps both.

## Model

| member | source | states |
|---|---|---|
| TaskStatus.IndexOf | backend/server.js:121 | the result is -1 exactly when no element strictly equals the value, otherwise the first position holding it |
| TaskStatus.Siguiente | backend/server.js:119-121 | the successor is always one of the three statuses, and any unrecognised value (null included) yields "pendiente" |
| TaskStatus.Parse | backend/server.js:119 | a column value reads as a status exactly when it is one of the three texts, and then it is that status's name |
| TaskStatus.ParseName | backend/server.js:119 | naming a status and reading it back is the identity |
| TaskStatus.NextPeriodThree | backend/server.js:119-121 | the reference cycle returns to its start after three steps and never stays put |
| TaskStatus.SiguienteMatchesNext | backend/server.js:119-121 | for every value, the index arithmetic gives the reference successor of a status and "pendiente" for anything else |
| TaskStatus.SiguienteTransitions | backend/server.js:119-121 | pendiente goes to completada, completada to cancelada, and cancelada wraps to pendiente |
| TaskStatus.SiguientePeriodThree | backend/server.js:119-121 | three successors of any status give the status back, derived from the reference cycle's period |
| TaskStatus.SiguienteIsPermutation | backend/server.js:119-121 | on the three statuses the successor has no fixed point and is injective |
| TaskTable.InsertRow | backend/server.js:74 | the insert adds exactly the new key, whose row holds the body's fields and the default status, and keeps every other row and the closed status set |
| TaskTable.UpdateWhere | backend/server.js:101 | the edit keeps the key set and every estado, changes only nombre/descripcion of the matching row, and leaves the table as it was when no row matches |
| TaskTable.SetEstadoWhere | backend/server.js:124 | the status write keeps the key set, every nombre and descripcion and every other row, and sets the matching row's estado |
| TaskTable.DeleteWhere | backend/server.js:137 | the delete removes exactly the given key, keeps every other row unchanged, and is a no-op for an absent key |
| TaskTable.CycleRow | backend/server.js:115-125 | cycling keeps the key set and every other row, keeps the cycled row's nombre and descripcion, and sets its estado to the successor of its old estado |
| TaskTable.CycleThrice | backend/server.js:115-125 | cycling one row three times restores the whole table |
| TaskTable.UpdateCommutesWithCycle | backend/server.js:101-124 | editing a row and cycling its status commute |
| TaskTable.UpdateIdempotent | backend/server.js:101 | repeating an edit changes nothing further |
| TaskTable.DeleteAbsorbsWrites | backend/server.js:137 | deleting a row after editing it or setting its status gives the same table as deleting it directly |
| TaskTable.DeleteUndoesInsert | backend/server.js:137 | deleting a freshly inserted row restores the table |
| TaskApi.TaskService.Create | backend/server.js:71-85 | on success the new key is fresh, the row is inserted, the counter advances, the response echoes id, nombre and descripcion with estado "pendiente", and that estado is the stored one; on failure "Error al insertar" and nothing changes |
| TaskApi.TaskService.List | backend/server.js:88-93 | on success the response holds every row of the table; on failure "Error al obtener" |
| TaskApi.TaskService.Update | backend/server.js:96-109 | on success "Tarea actualizada" and the table is the edit of the old one, even for an absent id; on failure "Error al actualizar" and nothing changes |
| TaskApi.TaskService.CycleStatus | backend/server.js:112-133 | a failed read or a missing row gives "Error al obtener estado", a failed write gives "Error al cambiar estado", and both leave the table unchanged; otherwise only that row's estado changes to the successor, and nuevo_estado is the value written |
| TaskApi.TaskService.Delete | backend/server.js:136-142 | on success "Tarea eliminada" and exactly the matching row is gone, even for an absent id; on failure "Error al eliminar" and nothing changes |
| TaskApi.Session | backend/server.js:71-142 | create "A"/"B" on an empty table yields id 1 with estado "pendiente"; the list holds exactly that row; cycling reports "completada"; after the delete the list is empty |

## Left out

- HTTP and Express plumbing (backend/server.js:1-14, :147-157): routing, CORS, JSON parsing, status codes and the HTTPS/HTTP listener choice. A response is modelled as its JSON body only. The `GET /` liveness route is framework output with no logic.
- The connection manager (backend/server.js:43-60): `createConnection`, `connect` and the two-second `setTimeout` retry loop are driver calls and timers. Each query's failure is instead a parameter of the method that issues it.
- Environment, certificate loading and the `dbConfig` defaults (backend/server.js:4-6, :17-41): configuration I/O.
- SQL semantics beyond the four statements: coercion of the string path parameter `id`, which is modelled as an integer; parameter binding; the row order of `SELECT *`. `List` returns the table as a map, so it carries no order.
- Concurrency: the cycling route issues its read (backend/server.js:115) and its write (backend/server.js:124) as two asynchronous queries, so concurrent cycles can interleave. The model takes the pair as one atomic step.
- Create, Update: the body fields `nombre` and `descripcion` are assumed to be strings, null or absent, and null and absent are both the one value `None`. For any other JSON value the stored column is not the echoed value: `{nombre: 5}` is echoed as the number 5 and stored as the text "5". The distinction that `res.json` drops an absent field from the reply and prints a null one is not modelled either.
- Create: the counter `nextId` models gap-free ids that start at 1 and step by 1, and a failed insert uses up no id. MySQL AUTO_INCREMENT promises only that a new id is fresh: InnoDB can lose a value on a failed insert, and `auto_increment_increment` changes the step. Only the freshness, kept by Valid(), is what the store guarantees; Session's concrete id 1 rests on the gap-free counter.
- An error reported after the statement took effect, for instance when the connection drops after the commit but before the reply arrives, is not modelled. In Create, Update, CycleStatus and Delete a failure leaves the table unchanged, which is the third assumption above.
- Values the store would reject, such as a NULL `nombre` in a NOT NULL column. These are covered only by the failure parameter, because the schema is not part of this model.
- frontend/src/App.js: a React component whose only behaviour is calling these routes and refetching the list. It is UI and network client code.
