/**
  The `tareas` table as a value: a map from the primary key `id` to the other
  three columns, and the effect of each SQL statement that writes
  (backend/server.js:74, :101, :124, :137) stated on that value. The two
  SELECTs (:89, :115) are reads of the map by the route methods.
 */
module TaskTable {
  import opened Wrappers
  import opened TaskStatus

  /** A text column or body field: a string, or NULL when it is null or undefined. */
  type Text = Option<string>

  /** One row of `tareas`, without its key. */
  datatype Tarea = Tarea(nombre: Text, descripcion: Text, estado: Text)

  type Rows = map<int, Tarea>

  /**
    Assumption about the schema, not visible in the route code: the column
    default of `tareas.estado` is 'pendiente', so INSERT without `estado`
    stores that value.
   */
  const DefaultEstado: Text := Some("pendiente")

  /** Every stored `estado` is one of the three statuses. */
  predicate StatusesClosed(rows: Rows) {
    forall id :: id in rows ==> IsEstado(rows[id].estado)
  }

  /**
    INSERT INTO tareas (nombre, descripcion) VALUES (?, ?), the new row under
    the key `id` the store assigns; `estado` takes the column default.
   */
  function InsertRow(rows: Rows, id: int, nombre: Text, descripcion: Text): (r: Rows)
    requires id !in rows
    ensures r.Keys == rows.Keys + {id}
    ensures r[id] == Tarea(nombre, descripcion, DefaultEstado)
    ensures forall k :: k in rows ==> r[k] == rows[k]
    ensures StatusesClosed(rows) ==> StatusesClosed(r)
  {
    rows[id := Tarea(nombre, descripcion, DefaultEstado)]
  }

  /** UPDATE tareas SET nombre=?, descripcion=? WHERE id=? */
  function UpdateWhere(rows: Rows, id: int, nombre: Text, descripcion: Text): (r: Rows)
    ensures r.Keys == rows.Keys
    ensures forall k :: k in rows ==> r[k].estado == rows[k].estado
    ensures forall k :: k in rows && k != id ==> r[k] == rows[k]
    ensures id in rows ==> r[id].nombre == nombre && r[id].descripcion == descripcion
    ensures id !in rows ==> r == rows
    ensures StatusesClosed(rows) ==> StatusesClosed(r)
  {
    map k | k in rows :: if k == id then rows[k].(nombre := nombre, descripcion := descripcion) else rows[k]
  }

  /** UPDATE tareas SET estado=? WHERE id=? */
  function SetEstadoWhere(rows: Rows, id: int, estado: Text): (r: Rows)
    ensures r.Keys == rows.Keys
    ensures forall k :: k in rows ==> r[k].nombre == rows[k].nombre && r[k].descripcion == rows[k].descripcion
    ensures forall k :: k in rows && k != id ==> r[k] == rows[k]
    ensures id in rows ==> r[id].estado == estado
    ensures id !in rows ==> r == rows
    ensures StatusesClosed(rows) && IsEstado(estado) ==> StatusesClosed(r)
  {
    map k | k in rows :: if k == id then rows[k].(estado := estado) else rows[k]
  }

  /** DELETE FROM tareas WHERE id=? */
  function DeleteWhere(rows: Rows, id: int): (r: Rows)
    ensures r.Keys == rows.Keys - {id}
    ensures forall k :: k in r ==> r[k] == rows[k]
    ensures id !in rows ==> r == rows
    ensures StatusesClosed(rows) ==> StatusesClosed(r)
  {
    map k | k in rows && k != id :: rows[k]
  }

  /**
    The status-cycling route as one step: read the row's `estado`, write its
    successor back to the same row.
   */
  function CycleRow(rows: Rows, id: int): (r: Rows)
    requires id in rows
    ensures r.Keys == rows.Keys
    ensures r[id].estado == Some(Siguiente(rows[id].estado))
    ensures r[id].nombre == rows[id].nombre && r[id].descripcion == rows[id].descripcion
    ensures forall k :: k in rows && k != id ==> r[k] == rows[k]
    ensures StatusesClosed(rows) ==> StatusesClosed(r)
  {
    SetEstadoWhere(rows, id, Some(Siguiente(rows[id].estado)))
  }

  /** Cycling the same row three times restores the whole table. */
  lemma CycleThrice(rows: Rows, id: int)
    requires id in rows && IsEstado(rows[id].estado)
    ensures CycleRow(CycleRow(CycleRow(rows, id), id), id) == rows
  {
    var r1 := CycleRow(rows, id);
    var r2 := CycleRow(r1, id);
    var r3 := CycleRow(r2, id);
    SiguientePeriodThree(rows[id].estado.value);
    assert r3[id] == rows[id];
    assert r3 == rows;
  }

  /** Editing a row and cycling its status touch disjoint columns, so they commute. */
  lemma UpdateCommutesWithCycle(rows: Rows, id: int, nombre: Text, descripcion: Text)
    requires id in rows
    ensures CycleRow(UpdateWhere(rows, id, nombre, descripcion), id)
         == UpdateWhere(CycleRow(rows, id), id, nombre, descripcion)
  {
  }

  /** Repeating the same edit changes nothing more. */
  lemma UpdateIdempotent(rows: Rows, id: int, nombre: Text, descripcion: Text)
    ensures UpdateWhere(UpdateWhere(rows, id, nombre, descripcion), id, nombre, descripcion)
         == UpdateWhere(rows, id, nombre, descripcion)
  {
  }

  /** Deleting a row discards any earlier edit or status change of it. */
  lemma DeleteAbsorbsWrites(rows: Rows, id: int, nombre: Text, descripcion: Text, estado: Text)
    ensures DeleteWhere(UpdateWhere(rows, id, nombre, descripcion), id) == DeleteWhere(rows, id)
    ensures DeleteWhere(SetEstadoWhere(rows, id, estado), id) == DeleteWhere(rows, id)
  {
  }

  /** Deleting a freshly inserted row gives back the table as it was. */
  lemma DeleteUndoesInsert(rows: Rows, id: int, nombre: Text, descripcion: Text)
    requires id !in rows
    ensures DeleteWhere(InsertRow(rows, id, nombre, descripcion), id) == rows
  {
  }
}
