/**
 * `InteressadoController` of the server (`src/server/controllers/InteressadoController.js`):
 * each handler checks the request, calls the model, and maps its outcome to
 * a status; whatever the model throws goes to `next`.
 */
module InteressadoController {
  import opened Common
  import opened Database
  import opened Http
  import M = InteressadoModel

  const Obrigatorios := "Nome, CPF, email e telefone são obrigatórios"
  const NaoEncontrado := "Interessado não encontrado"

  /** A record as `res.json` writes it. */
  function RecordJson(rec: M.Record): Json {
    Obj(map[
      "id" := Num(rec.id),
      "nome" := Column(rec.nome),
      "email" := Column(rec.email),
      "telefone" := Column(rec.telefone),
      "cpf" := Column(rec.cpf)])
  }

  /** `model result` as `res.json` writes it: the record, or `null`. */
  function MaybeRecordJson(rec: Option<M.Record>): Json {
    match rec
    case Some(r) => RecordJson(r)
    case None => Null
  }

  /** `const { nome, cpf, email, telefone } = req.body`. */
  function DadosOf(body: Body): M.Dados {
    M.Dados(Field(body, "nome"), Field(body, "cpf"), Field(body, "email"), Field(body, "telefone"))
  }

  /** `!nome || !cpf || !email || !telefone`. */
  predicate Incompleto(d: M.Dados) {
    Falsy(d.nome) || Falsy(d.cpf) || Falsy(d.email) || Falsy(d.telefone)
  }

  /** `listarTodos`: 200 with every record, ordered by `nome`. */
  method ListarTodos(t: Table<M.Interessado>, fault: Fault) returns (reply: Reply)
    requires t.Valid()
    ensures Outcome(fault, 0).Some? ==> reply == Next(Thrown("Erro ao buscar interessados"))
    ensures Outcome(fault, 0).None? ==> reply == Send(Response(200, Some(Arr(JsonList(M.Listing(t.rows, t.autoIncrement), RecordJson)))))
  {
    var r := M.FindAll(t, fault);
    if r.Err? {
      return Next(r.error);
    }
    reply := Send(Response(200, Some(Arr(JsonList(r.value, RecordJson)))));
  }

  /** `buscarPorId`: 404 when the model answers `null`, otherwise 200 with the record. */
  method BuscarPorId(t: Table<M.Interessado>, id: nat, fault: Fault) returns (reply: Reply)
    ensures Outcome(fault, 0).Some? ==> reply == Next(Thrown("Erro ao buscar interessado"))
    ensures Outcome(fault, 0).None? && id !in t.rows ==> reply == Send(MessageResponse(404, "error", NaoEncontrado))
    ensures Outcome(fault, 0).None? && id in t.rows ==>
      reply == Send(Response(200, Some(RecordJson(M.FromRow(Row(id, t.rows[id]))))))
  {
    var r := M.FindById(t, id, fault);
    if r.Err? {
      return Next(r.error);
    }
    if r.value.None? {
      return Send(MessageResponse(404, "error", NaoEncontrado));
    }
    reply := Send(Response(200, Some(RecordJson(r.value.value))));
  }

  /**
   * `criar`: 400 when a field is missing or empty, and nothing is stored;
   * otherwise the fields are stored as given, with no check of their format,
   * and the answer is 201 with the re-read record.
   */
  method Criar(t: Table<M.Interessado>, body: Body, fault: Fault) returns (reply: Reply)
    requires t.Valid()
    modifies t
    ensures t.Valid()
    ensures Incompleto(DadosOf(body)) ==>
      && reply == Send(MessageResponse(400, "error", Obrigatorios))
      && t.rows == old(t.rows) && t.autoIncrement == old(t.autoIncrement)
    ensures !Incompleto(DadosOf(body)) && Outcome(fault, 0).Some? ==>
      && reply == Next(Thrown("Erro ao criar interessado"))
      && t.rows == old(t.rows) && t.autoIncrement == old(t.autoIncrement)
    ensures !Incompleto(DadosOf(body)) && Outcome(fault, 0).None? ==>
      && t.rows == old(t.rows)[old(t.autoIncrement) := M.NewRow(DadosOf(body))]
      && t.autoIncrement == old(t.autoIncrement) + 1
    ensures !Incompleto(DadosOf(body)) && Outcome(fault, 0).None? && Outcome(fault, 1).Some? ==>
      reply == Next(Thrown("Erro ao buscar interessado"))
    ensures !Incompleto(DadosOf(body)) && Outcome(fault, 0).None? && Outcome(fault, 1).None? ==>
      reply == Send(Response(201, Some(RecordJson(M.RecordOf(old(t.autoIncrement), DadosOf(body))))))
  {
    var dados := DadosOf(body);
    if Incompleto(dados) {
      return Send(MessageResponse(400, "error", Obrigatorios));
    }
    var r := M.Create(t, dados, fault);
    if r.Err? {
      return Next(r.error);
    }
    reply := Send(Response(201, Some(MaybeRecordJson(r.value))));
  }

  /**
   * `atualizar`: the same field check first; then 404 when no row has the
   * key, otherwise 200 with the re-read record.
   */
  method Atualizar(t: Table<M.Interessado>, id: nat, body: Body, fault: Fault) returns (reply: Reply)
    requires t.Valid()
    modifies t
    ensures t.Valid() && t.autoIncrement == old(t.autoIncrement)
    ensures Incompleto(DadosOf(body)) ==>
      reply == Send(MessageResponse(400, "error", Obrigatorios)) && t.rows == old(t.rows)
    ensures !Incompleto(DadosOf(body)) && Outcome(fault, 0).Some? ==>
      reply == Next(Thrown("Erro ao atualizar interessado")) && t.rows == old(t.rows)
    ensures !Incompleto(DadosOf(body)) && Outcome(fault, 0).None? && id !in old(t.rows) ==>
      reply == Send(MessageResponse(404, "error", NaoEncontrado)) && t.rows == old(t.rows)
    ensures !Incompleto(DadosOf(body)) && Outcome(fault, 0).None? && id in old(t.rows) ==>
      t.rows == old(t.rows)[id := M.Replaced(old(t.rows)[id], DadosOf(body))]
    ensures !Incompleto(DadosOf(body)) && Outcome(fault, 0).None? && id in old(t.rows) && Outcome(fault, 1).Some? ==>
      reply == Next(Thrown("Erro ao buscar interessado"))
    ensures !Incompleto(DadosOf(body)) && Outcome(fault, 0).None? && id in old(t.rows) && Outcome(fault, 1).None? ==>
      reply == Send(Response(200, Some(RecordJson(M.RecordOf(id, DadosOf(body))))))
  {
    var dados := DadosOf(body);
    if Incompleto(dados) {
      return Send(MessageResponse(400, "error", Obrigatorios));
    }
    var r := M.Update(t, id, dados, fault);
    if r.Err? {
      return Next(r.error);
    }
    if r.value.None? {
      return Send(MessageResponse(404, "error", NaoEncontrado));
    }
    reply := Send(Response(200, Some(RecordJson(r.value.value))));
  }

  /** `remover`: 404 when nothing was removed, otherwise 204 (with a message object). */
  method Remover(t: Table<M.Interessado>, id: nat, fault: Fault) returns (reply: Reply)
    requires t.Valid()
    modifies t
    ensures t.Valid() && t.autoIncrement == old(t.autoIncrement)
    ensures Outcome(fault, 0).Some? ==> reply == Next(Thrown("Erro ao remover interessado")) && t.rows == old(t.rows)
    ensures Outcome(fault, 0).None? && id !in old(t.rows) ==>
      reply == Send(MessageResponse(404, "error", NaoEncontrado)) && t.rows == old(t.rows)
    ensures Outcome(fault, 0).None? && id in old(t.rows) ==>
      && reply == Send(MessageResponse(204, "mensagem", "Interessado removido com sucesso"))
      && t.rows == old(t.rows) - {id}
  {
    var r := M.Delete(t, id, fault);
    if r.Err? {
      return Next(r.error);
    }
    if !r.value {
      return Send(MessageResponse(404, "error", NaoEncontrado));
    }
    reply := Send(MessageResponse(204, "mensagem", "Interessado removido com sucesso"));
  }
}
