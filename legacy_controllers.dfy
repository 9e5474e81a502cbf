/**
 * The older controller `src/controllers/InteressadoController.js`: no
 * validation, answers that echo the request instead of re-reading the row,
 * `affectedRows === 0` as not-found, and a 500 with a message of its own for
 * any error.
 */
module LegacyInteressadoController {
  import opened Common
  import opened Database
  import opened Http
  import M = InteressadoModel
  import L = LegacyInteressadoModel
  import Server = InteressadoController
  import Routes = InteressadosRoutes

  const NaoEncontrado := "Interessado não encontrado"

  /** `create`: 201 with `{ id: insertId, ...req.body }`; 500 when the insert fails. */
  method Create(t: Table<M.Interessado>, body: Body, fault: Fault) returns (response: Response)
    requires t.Valid()
    modifies t
    ensures t.Valid()
    ensures !L.Bindable(Server.DadosOf(body)) || Outcome(fault, 0).Some? ==>
      && response == MessageResponse(500, "error", "Erro ao criar interessado")
      && t.rows == old(t.rows) && t.autoIncrement == old(t.autoIncrement)
    ensures L.Bindable(Server.DadosOf(body)) && Outcome(fault, 0).None? ==>
      && t.rows == old(t.rows)[old(t.autoIncrement) := M.NewRow(Server.DadosOf(body))]
      && t.autoIncrement == old(t.autoIncrement) + 1
      && response == Response(201, Some(Obj(Spread(Num(old(t.autoIncrement)), body))))
  {
    var result := L.Create(t, Server.DadosOf(body), fault);
    if result.Err? {
      return MessageResponse(500, "error", "Erro ao criar interessado");
    }
    response := Response(201, Some(Obj(Spread(Num(result.value.insertId), body))));
  }

  /** `findAll`: 200 with every row. */
  method FindAll(t: Table<M.Interessado>, fault: Fault) returns (response: Response)
    requires t.Valid()
    ensures Outcome(fault, 0).Some? ==> response == MessageResponse(500, "error", "Erro ao buscar interessados")
    ensures Outcome(fault, 0).None? ==>
      && response.status == 200 && response.body.Some? && response.body.value.Arr?
      && |response.body.value.items| == |t.rows|
      && forall id | id in t.rows :: Routes.RowJson(Row(id, t.rows[id])) in response.body.value.items
  {
    var rows := L.FindAll(t, fault);
    if rows.Err? {
      return MessageResponse(500, "error", "Erro ao buscar interessados");
    }
    var items := JsonList(rows.value, Routes.RowJson);
    forall id | id in t.rows
      ensures Routes.RowJson(Row(id, t.rows[id])) in items
    {
      var k :| 0 <= k < |rows.value| && rows.value[k] == Row(id, t.rows[id]);
      assert items[k] == Routes.RowJson(Row(id, t.rows[id]));
    }
    response := Response(200, Some(Arr(items)));
  }

  /** `findById`: 404 when there is no row, otherwise 200 with it. */
  method FindById(t: Table<M.Interessado>, id: nat, fault: Fault) returns (response: Response)
    ensures Outcome(fault, 0).Some? ==> response == MessageResponse(500, "error", "Erro ao buscar interessado")
    ensures Outcome(fault, 0).None? && id !in t.rows ==> response == MessageResponse(404, "error", NaoEncontrado)
    ensures Outcome(fault, 0).None? && id in t.rows ==> response == Response(200, Some(Routes.RowJson(Row(id, t.rows[id]))))
  {
    var row := L.FindById(t, id, fault);
    if row.Err? {
      return MessageResponse(500, "error", "Erro ao buscar interessado");
    }
    if row.value.None? {
      return MessageResponse(404, "error", NaoEncontrado);
    }
    response := Response(200, Some(Routes.RowJson(row.value.value)));
  }

  /** `update`: 404 when no row matched, otherwise 200 with `{ id: req.params.id, ...req.body }`. */
  method Update(t: Table<M.Interessado>, id: nat, body: Body, fault: Fault) returns (response: Response)
    requires t.Valid()
    modifies t
    ensures t.Valid() && t.autoIncrement == old(t.autoIncrement)
    ensures !L.Bindable(Server.DadosOf(body)) || Outcome(fault, 0).Some? ==>
      response == MessageResponse(500, "error", "Erro ao atualizar interessado") && t.rows == old(t.rows)
    ensures L.Bindable(Server.DadosOf(body)) && Outcome(fault, 0).None? && id !in old(t.rows) ==>
      response == MessageResponse(404, "error", NaoEncontrado) && t.rows == old(t.rows)
    ensures L.Bindable(Server.DadosOf(body)) && Outcome(fault, 0).None? && id in old(t.rows) ==>
      && t.rows == old(t.rows)[id := M.Replaced(old(t.rows)[id], Server.DadosOf(body))]
      && response == Response(200, Some(Obj(Spread(Str(NatToString(id)), body))))
  {
    var result := L.Update(t, id, Server.DadosOf(body), fault);
    if result.Err? {
      return MessageResponse(500, "error", "Erro ao atualizar interessado");
    }
    if result.value.affectedRows == 0 {
      return MessageResponse(404, "error", NaoEncontrado);
    }
    response := Response(200, Some(Obj(Spread(Str(NatToString(id)), body))));
  }

  /** `delete`: 404 when no row was removed, otherwise 204. */
  method Delete(t: Table<M.Interessado>, id: nat, fault: Fault) returns (response: Response)
    requires t.Valid()
    modifies t
    ensures t.Valid() && t.autoIncrement == old(t.autoIncrement)
    ensures Outcome(fault, 0).Some? ==>
      response == MessageResponse(500, "error", "Erro ao remover interessado") && t.rows == old(t.rows)
    ensures Outcome(fault, 0).None? && id !in old(t.rows) ==>
      response == MessageResponse(404, "error", NaoEncontrado) && t.rows == old(t.rows)
    ensures Outcome(fault, 0).None? && id in old(t.rows) ==>
      response == Response(204, None) && t.rows == old(t.rows) - {id}
  {
    var result := L.Delete(t, id, fault);
    if result.Err? {
      return MessageResponse(500, "error", "Erro ao remover interessado");
    }
    if result.value.affectedRows == 0 {
      return MessageResponse(404, "error", NaoEncontrado);
    }
    response := Response(204, None);
  }
}

/**
 * The older controller `src/controllers/FilhoteController.js`: the same five
 * handlers over `filhotes`, with its own messages.
 */
module LegacyFilhoteController {
  import opened Common
  import opened Database
  import opened Http
  import F = FilhoteModel
  import L = LegacyFilhoteModel
  import Server = FilhoteController

  const NaoEncontrado := "Filhote não encontrado"

  /** `create`: 201 with `{ id: insertId, ...req.body }`; 500 when the insert fails. */
  method Create(t: Table<F.Filhote>, body: Body, fault: Fault) returns (response: Response)
    requires t.Valid()
    modifies t
    ensures t.Valid()
    ensures !L.Bindable(Server.DadosOf(body)) || Outcome(fault, 0).Some? ==>
      && response == MessageResponse(500, "error", "Erro ao criar filhote")
      && t.rows == old(t.rows) && t.autoIncrement == old(t.autoIncrement)
    ensures L.Bindable(Server.DadosOf(body)) && Outcome(fault, 0).None? ==>
      && t.rows == old(t.rows)[old(t.autoIncrement) := L.NewRow(Server.DadosOf(body))]
      && t.autoIncrement == old(t.autoIncrement) + 1
      && response == Response(201, Some(Obj(Spread(Num(old(t.autoIncrement)), body))))
  {
    var result := L.Create(t, Server.DadosOf(body), fault);
    if result.Err? {
      return MessageResponse(500, "error", "Erro ao criar filhote");
    }
    response := Response(201, Some(Obj(Spread(Num(result.value.insertId), body))));
  }

  /** `findAll`: 200 with every row. */
  method FindAll(t: Table<F.Filhote>, fault: Fault) returns (response: Response)
    requires t.Valid()
    ensures Outcome(fault, 0).Some? ==> response == MessageResponse(500, "error", "Erro ao buscar filhotes")
    ensures Outcome(fault, 0).None? ==>
      && response.status == 200 && response.body.Some? && response.body.value.Arr?
      && |response.body.value.items| == |t.rows|
      && forall id | id in t.rows :: Server.RowJson(Row(id, t.rows[id])) in response.body.value.items
  {
    var rows := L.FindAll(t, fault);
    if rows.Err? {
      return MessageResponse(500, "error", "Erro ao buscar filhotes");
    }
    var items := JsonList(rows.value, Server.RowJson);
    forall id | id in t.rows
      ensures Server.RowJson(Row(id, t.rows[id])) in items
    {
      var k :| 0 <= k < |rows.value| && rows.value[k] == Row(id, t.rows[id]);
      assert items[k] == Server.RowJson(Row(id, t.rows[id]));
    }
    response := Response(200, Some(Arr(items)));
  }

  /** `findById`: 404 when there is no row, otherwise 200 with it. */
  method FindById(t: Table<F.Filhote>, id: nat, fault: Fault) returns (response: Response)
    ensures Outcome(fault, 0).Some? ==> response == MessageResponse(500, "error", "Erro ao buscar filhote")
    ensures Outcome(fault, 0).None? && id !in t.rows ==> response == MessageResponse(404, "error", NaoEncontrado)
    ensures Outcome(fault, 0).None? && id in t.rows ==> response == Response(200, Some(Server.RowJson(Row(id, t.rows[id]))))
  {
    var row := L.FindById(t, id, fault);
    if row.Err? {
      return MessageResponse(500, "error", "Erro ao buscar filhote");
    }
    if row.value.None? {
      return MessageResponse(404, "error", NaoEncontrado);
    }
    response := Response(200, Some(Server.RowJson(row.value.value)));
  }

  /** `update`: 404 when no row matched, otherwise 200 with `{ id: req.params.id, ...req.body }`. */
  method Update(t: Table<F.Filhote>, id: nat, body: Body, fault: Fault) returns (response: Response)
    requires t.Valid()
    modifies t
    ensures t.Valid() && t.autoIncrement == old(t.autoIncrement)
    ensures !L.Bindable(Server.DadosOf(body)) || Outcome(fault, 0).Some? ==>
      response == MessageResponse(500, "error", "Erro ao atualizar filhote") && t.rows == old(t.rows)
    ensures L.Bindable(Server.DadosOf(body)) && Outcome(fault, 0).None? && id !in old(t.rows) ==>
      response == MessageResponse(404, "error", NaoEncontrado) && t.rows == old(t.rows)
    ensures L.Bindable(Server.DadosOf(body)) && Outcome(fault, 0).None? && id in old(t.rows) ==>
      && t.rows == old(t.rows)[id := L.Rewritten(old(t.rows)[id], Server.DadosOf(body))]
      && response == Response(200, Some(Obj(Spread(Str(NatToString(id)), body))))
  {
    var result := L.Update(t, id, Server.DadosOf(body), fault);
    if result.Err? {
      return MessageResponse(500, "error", "Erro ao atualizar filhote");
    }
    if result.value.affectedRows == 0 {
      return MessageResponse(404, "error", NaoEncontrado);
    }
    response := Response(200, Some(Obj(Spread(Str(NatToString(id)), body))));
  }

  /** `delete`: 404 when no row was removed, otherwise 204. */
  method Delete(t: Table<F.Filhote>, id: nat, fault: Fault) returns (response: Response)
    requires t.Valid()
    modifies t
    ensures t.Valid() && t.autoIncrement == old(t.autoIncrement)
    ensures Outcome(fault, 0).Some? ==>
      response == MessageResponse(500, "error", "Erro ao remover filhote") && t.rows == old(t.rows)
    ensures Outcome(fault, 0).None? && id !in old(t.rows) ==>
      response == MessageResponse(404, "error", NaoEncontrado) && t.rows == old(t.rows)
    ensures Outcome(fault, 0).None? && id in old(t.rows) ==>
      response == Response(204, None) && t.rows == old(t.rows) - {id}
  {
    var result := L.Delete(t, id, fault);
    if result.Err? {
      return MessageResponse(500, "error", "Erro ao remover filhote");
    }
    if result.value.affectedRows == 0 {
      return MessageResponse(404, "error", NaoEncontrado);
    }
    response := Response(204, None);
  }
}
