/**
  The five `/api/tareas` route handlers (backend/server.js:71-142) as methods
  on an object holding the `tareas` table. Each `db.query` either fails, which
  the caller states through a `fail…` flag, or performs its statement. It is
  an assumption about the store that a failed statement changed nothing. The
  handler then answers with a JSON body, modelled by Response.
 */
module TaskApi {
  import opened Wrappers
  import opened TaskStatus
  import opened TaskTable

  /** The JSON body a route answers with. */
  datatype Response =
    | Created(id: int, nombre: Text, descripcion: Text, estado: string)
    | Listed(tareas: Rows)
    | Done(message: string)
    | StatusChanged(message: string, nuevoEstado: string)
    | Failure(error: string)

  class TaskService {
    /** The rows of `tareas`, by primary key. */
    var rows: Rows
    /**
      The AUTO_INCREMENT counter behind `insertId`. The store never hands out
      a key already in use; the invariant Valid() states that assumption.
     */
    var nextId: int

    predicate Valid()
      reads this
    {
      1 <= nextId && forall k :: k in rows ==> k < nextId
    }

    /** An empty table whose counter starts at 1. */
    constructor ()
      ensures Valid()
      ensures rows == map[] && nextId == 1
    {
      rows := map[];
      nextId := 1;
    }

    /** POST /api/tareas: insert the body's `nombre` and `descripcion`. */
    method Create(nombre: Text, descripcion: Text, fail: bool) returns (r: Response)
      requires Valid()
      modifies this
      ensures Valid()
      ensures fail ==> r == Failure("Error al insertar") && rows == old(rows) && nextId == old(nextId)
      ensures !fail ==> (old(nextId) !in old(rows)
                         && rows == InsertRow(old(rows), old(nextId), nombre, descripcion)
                         && nextId == old(nextId) + 1)
      ensures !fail ==> r == Created(old(nextId), nombre, descripcion, "pendiente")
      ensures !fail ==> rows[r.id].estado == Some(r.estado)
      ensures old(StatusesClosed(rows)) ==> StatusesClosed(rows)
    {
      if fail {
        return Failure("Error al insertar");
      }
      var insertId := nextId;
      rows := InsertRow(rows, insertId, nombre, descripcion);
      nextId := nextId + 1;
      r := Created(insertId, nombre, descripcion, "pendiente");
    }

    /** GET /api/tareas: every row. */
    method List(fail: bool) returns (r: Response)
      requires Valid()
      ensures fail ==> r == Failure("Error al obtener")
      ensures !fail ==> r.Listed? && r.tareas == rows
    {
      if fail {
        return Failure("Error al obtener");
      }
      r := Listed(rows);
    }

    /**
      PUT /api/tareas/:id: overwrite `nombre` and `descripcion` of the matching
      row. There is no existence check: an absent id affects no row and the
      route still reports success.
     */
    method Update(id: int, nombre: Text, descripcion: Text, fail: bool) returns (r: Response)
      requires Valid()
      modifies this
      ensures Valid() && nextId == old(nextId)
      ensures fail ==> r == Failure("Error al actualizar") && rows == old(rows)
      ensures !fail ==> r == Done("Tarea actualizada") && rows == UpdateWhere(old(rows), id, nombre, descripcion)
      ensures old(StatusesClosed(rows)) ==> StatusesClosed(rows)
    {
      if fail {
        return Failure("Error al actualizar");
      }
      rows := UpdateWhere(rows, id, nombre, descripcion);
      r := Done("Tarea actualizada");
    }

    /**
      PUT /api/tareas/estado/:id: read the row's `estado` and write its
      successor. A failed read or a missing row gives one error, a failed
      write another; neither changes the table. The read and the write are
      taken as one atomic step.
     */
    method CycleStatus(id: int, failRead: bool, failWrite: bool) returns (r: Response)
      requires Valid()
      modifies this
      ensures Valid() && nextId == old(nextId)
      ensures failRead || id !in old(rows) ==> r == Failure("Error al obtener estado") && rows == old(rows)
      ensures !failRead && id in old(rows) && failWrite ==> r == Failure("Error al cambiar estado") && rows == old(rows)
      ensures !failRead && id in old(rows) && !failWrite ==>
                (r == StatusChanged("Estado actualizado", Siguiente(old(rows)[id].estado))
                 && rows == SetEstadoWhere(old(rows), id, Some(r.nuevoEstado))
                 && rows == CycleRow(old(rows), id))
      ensures old(StatusesClosed(rows)) ==> StatusesClosed(rows)
    {
      if failRead || id !in rows {
        return Failure("Error al obtener estado");
      }
      var actual := rows[id].estado;
      var siguiente := Siguiente(actual);
      if failWrite {
        return Failure("Error al cambiar estado");
      }
      rows := SetEstadoWhere(rows, id, Some(siguiente));
      r := StatusChanged("Estado actualizado", siguiente);
    }

    /**
      DELETE /api/tareas/:id: remove the matching row. An absent id affects no
      row and the route still reports success.
     */
    method Delete(id: int, fail: bool) returns (r: Response)
      requires Valid()
      modifies this
      ensures Valid() && nextId == old(nextId)
      ensures fail ==> r == Failure("Error al eliminar") && rows == old(rows)
      ensures !fail ==> r == Done("Tarea eliminada") && rows == DeleteWhere(old(rows), id)
      ensures old(StatusesClosed(rows)) ==> StatusesClosed(rows)
    {
      if fail {
        return Failure("Error al eliminar");
      }
      rows := DeleteWhere(rows, id);
      r := Done("Tarea eliminada");
    }
  }

  /**
    A client session on a fresh table with no storage failure: create a task,
    list it, cycle its status, delete it and list again.
   */
  method Session() returns (created: Response, listed: Response, cycled: Response, relisted: Response)
    ensures created == Created(1, Some("A"), Some("B"), "pendiente")
    ensures listed.Listed? && listed.tareas == map[1 := Tarea(Some("A"), Some("B"), Some("pendiente"))]
    ensures cycled == StatusChanged("Estado actualizado", "completada")
    ensures relisted.Listed? && relisted.tareas == map[]
  {
    var api := new TaskService();
    created := api.Create(Some("A"), Some("B"), false);
    listed := api.List(false);
    assert api.rows.Keys == {1};
    cycled := api.CycleStatus(created.id, false, false);
    SiguienteTransitions();
    var deleted := api.Delete(created.id, false);
    relisted := api.List(false);
  }
}
