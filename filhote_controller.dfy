/**
 * `FilhoteController` of the server (`src/server/controllers/FilhoteController.js`):
 * the handlers of `/api/filhotes`. They check that `especie` and `raca` are
 * present, call the model with the current time, and pass whatever the model
 * throws to `next`.
 */
module FilhoteController {
  import opened Common
  import opened Database
  import opened Http
  import M = FilhoteModel

  const Obrigatorios := "Espécie e raça são obrigatórios"
  const NaoEncontrado := "Filhote não encontrado"

  /** A timestamp column as `res.json` writes it, by the instant it names. */
  function TimeJson(t: Option<M.Time>): Json {
    match t
    case None => Null
    case Some(v) => Num(v)
  }

  /** A row as `res.json` writes it. */
  function RowJson(row: Row<M.Filhote>): Json {
    Obj(map[
      "id" := Num(row.id),
      "especie" := Column(row.data.especie),
      "raca" := Column(row.data.raca),
      "created_at" := TimeJson(row.data.createdAt),
      "updated_at" := TimeJson(row.data.updatedAt)])
  }

  /** The model's answer as `res.json` writes it: the row, or `null`. */
  function MaybeRowJson(row: Option<Row<M.Filhote>>): Json {
    match row
    case Some(r) => RowJson(r)
    case None => Null
  }

  /** `const { especie, raca } = req.body`. */
  function DadosOf(body: Body): M.Dados {
    M.Dados(Field(body, "especie"), Field(body, "raca"))
  }

  /** `!especie || !raca`. */
  predicate Incompleto(d: M.Dados) {
    Falsy(d.especie) || Falsy(d.raca)
  }

  /** The 404 of `buscarPorId`, which carries a second message. */
  const NaoExiste := Response(404, Some(Obj(map[
    "error" := Str(NaoEncontrado),
    "message" := Str("O filhote solicitado não existe no sistema")])))

  /** `listarTodos`: 200 with every row, newest first. */
  method ListarTodos(t: Table<M.Filhote>, fault: Fault) returns (reply: Reply)
    requires t.Valid()
    ensures Outcome(fault, 0).Some? ==> reply == Next(Driver(fault.error))
    ensures Outcome(fault, 0).None? ==> reply == Send(Response(200, Some(Arr(JsonList(M.Listing(t.rows, t.autoIncrement), RowJson)))))
  {
    var r := M.FindAll(t, fault);
    if r.Err? {
      return Next(r.error);
    }
    reply := Send(Response(200, Some(Arr(JsonList(r.value, RowJson)))));
  }

  /** `buscarPorId`: 404 when the key has no row, otherwise 200 with the row. */
  method BuscarPorId(t: Table<M.Filhote>, id: nat, fault: Fault) returns (reply: Reply)
    ensures Outcome(fault, 0).Some? ==> reply == Next(Driver(fault.error))
    ensures Outcome(fault, 0).None? && id !in t.rows ==> reply == Send(NaoExiste)
    ensures Outcome(fault, 0).None? && id in t.rows ==> reply == Send(Response(200, Some(RowJson(Row(id, t.rows[id])))))
  {
    var r := M.FindById(t, id, fault);
    if r.Err? {
      return Next(r.error);
    }
    if r.value.None? {
      return Send(NaoExiste);
    }
    reply := Send(Response(200, Some(RowJson(r.value.value))));
  }

  /** `criar`: 400 when a field is missing or empty; otherwise 201 with the new row, stamped `now`. */
  method Criar(t: Table<M.Filhote>, body: Body, now: M.Time, fault: Fault) returns (reply: Reply)
    requires t.Valid()
    modifies t
    ensures t.Valid()
    ensures Incompleto(DadosOf(body)) ==>
      && reply == Send(MessageResponse(400, "error", Obrigatorios))
      && t.rows == old(t.rows) && t.autoIncrement == old(t.autoIncrement)
    ensures !Incompleto(DadosOf(body)) && Outcome(fault, 0).Some? ==>
      && reply == Next(Driver(fault.error))
      && t.rows == old(t.rows) && t.autoIncrement == old(t.autoIncrement)
    ensures !Incompleto(DadosOf(body)) && Outcome(fault, 0).None? ==>
      && t.rows == old(t.rows)[old(t.autoIncrement) := M.Filhote(DadosOf(body).especie, DadosOf(body).raca, Some(now), None)]
      && t.autoIncrement == old(t.autoIncrement) + 1
    ensures !Incompleto(DadosOf(body)) && Outcome(fault, 0).None? && Outcome(fault, 1).Some? ==>
      reply == Next(Driver(fault.error))
    ensures !Incompleto(DadosOf(body)) && Outcome(fault, 0).None? && Outcome(fault, 1).None? ==>
      reply == Send(Response(201, Some(RowJson(Row(old(t.autoIncrement), t.rows[old(t.autoIncrement)])))))
  {
    var dados := DadosOf(body);
    if Incompleto(dados) {
      return Send(MessageResponse(400, "error", Obrigatorios));
    }
    var r := M.Create(t, dados, now, fault);
    if r.Err? {
      return Next(r.error);
    }
    reply := Send(Response(201, Some(MaybeRowJson(r.value))));
  }

  /**
   * `atualizar`: the field check, then a look-up (404 when the key has no
   * row), then the model's `update` and 200 with the row it re-reads.
   */
  method Atualizar(t: Table<M.Filhote>, id: nat, body: Body, now: M.Time, fault: Fault) returns (reply: Reply)
    requires t.Valid()
    modifies t
    ensures t.Valid() && t.autoIncrement == old(t.autoIncrement)
    ensures Incompleto(DadosOf(body)) ==>
      reply == Send(MessageResponse(400, "error", Obrigatorios)) && t.rows == old(t.rows)
    ensures !Incompleto(DadosOf(body)) && Outcome(fault, 0).Some? ==>
      reply == Next(Driver(fault.error)) && t.rows == old(t.rows)
    ensures !Incompleto(DadosOf(body)) && Outcome(fault, 0).None? && id !in old(t.rows) ==>
      reply == Send(MessageResponse(404, "error", NaoEncontrado)) && t.rows == old(t.rows)
    ensures !Incompleto(DadosOf(body)) && Outcome(fault, 0).None? && id in old(t.rows) && Outcome(fault, 1).Some? ==>
      reply == Next(Driver(fault.error)) && t.rows == old(t.rows)
    ensures !Incompleto(DadosOf(body)) && Outcome(fault, 0).None? && id in old(t.rows) && Outcome(fault, 1).None? ==>
      t.rows == old(t.rows)[id := M.Stamped(old(t.rows)[id], DadosOf(body), now)]
    ensures (!Incompleto(DadosOf(body)) && Outcome(fault, 0).None? && id in old(t.rows)
      && Outcome(fault, 1).None? && Outcome(fault, 2).Some?) ==>
      reply == Next(Driver(fault.error))
    ensures (!Incompleto(DadosOf(body)) && Outcome(fault, 0).None? && id in old(t.rows)
      && Outcome(fault, 1).None? && Outcome(fault, 2).None?) ==>
      reply == Send(Response(200, Some(RowJson(Row(id, M.Stamped(old(t.rows)[id], DadosOf(body), now))))))
  {
    var dados := DadosOf(body);
    if Incompleto(dados) {
      return Send(MessageResponse(400, "error", Obrigatorios));
    }
    var existente := M.FindById(t, id, fault);
    if existente.Err? {
      return Next(existente.error);
    }
    if existente.value.None? {
      return Send(MessageResponse(404, "error", NaoEncontrado));
    }
    var r := M.Update(t, id, dados, now, Shift(fault, 1));
    if r.Err? {
      return Next(r.error);
    }
    reply := Send(Response(200, Some(MaybeRowJson(r.value))));
  }

  /** `remover`: 404 when nothing was removed, otherwise 204 with no body. */
  method Remover(t: Table<M.Filhote>, id: nat, fault: Fault) returns (reply: Reply)
    requires t.Valid()
    modifies t
    ensures t.Valid() && t.autoIncrement == old(t.autoIncrement)
    ensures Outcome(fault, 0).Some? ==> reply == Next(Driver(fault.error)) && t.rows == old(t.rows)
    ensures Outcome(fault, 0).None? && id !in old(t.rows) ==>
      reply == Send(MessageResponse(404, "error", NaoEncontrado)) && t.rows == old(t.rows)
    ensures Outcome(fault, 0).None? && id in old(t.rows) ==>
      reply == Send(Response(204, None)) && t.rows == old(t.rows) - {id}
  {
    var r := M.Delete(t, id, fault);
    if r.Err? {
      return Next(r.error);
    }
    if !r.value {
      return Send(MessageResponse(404, "error", NaoEncontrado));
    }
    reply := Send(Response(204, None));
  }
}
