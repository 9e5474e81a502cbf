/**
 * The stand-alone router `src/server/routes/interessadosRoutes.js`: five
 * handlers that talk to the `interessados` table through `query`, the pool's
 * `query`, and answer every failure themselves. `POST` and `PUT` first run a
 * chain of four checks and report only the first one that fails.
 *
 * The pool's `query` resolves to a pair `[result, fields]`, but the handlers
 * use the pair as if it were the result. The functions `...AsWritten` model
 * the handlers' answers as the code computes them; the handler methods use
 * the corrected answers, which first take the result out of the pair.
 */
module InteressadosRoutes {
  import opened Common
  import opened Database
  import opened Http
  import Ordering
  import Cpf
  import ServerValidators
  import M = InteressadoModel

  const NaoEncontrado := "Interessado não encontrado"

  /** The five fields `POST` and `PUT` destructure from the body. */
  datatype Campos = Campos(
    nome: Option<string>,
    cpf: Option<string>,
    email: Option<string>,
    telefone: Option<string>,
    observacoes: Option<string>)

  function CamposOf(body: Body): Campos {
    Campos(Field(body, "nome"), Field(body, "cpf"), Field(body, "email"), Field(body, "telefone"), Field(body, "observacoes"))
  }

  /** A field's text; the checks after the first only look at present fields. */
  function Text(v: Option<string>): string {
    if v.Some? then v.value else ""
  }

  /** The number of checks in the chain. */
  const Checks := 4

  /** Check `k` of the chain: required fields, CPF, email, telephone. */
  predicate Passes(c: Campos, k: nat) {
    if k == 0 then !Falsy(c.nome) && !Falsy(c.cpf) && !Falsy(c.email) && !Falsy(c.telefone)
    else if k == 1 then Cpf.IsValid(Text(c.cpf))
    else if k == 2 then ServerValidators.ValidarEmail(Text(c.email))
    else ServerValidators.ValidarTelefone(Text(c.telefone))
  }

  /** The 400 message of check `k`. */
  function Message(k: nat): string {
    if k == 0 then "Todos os campos obrigatórios devem ser preenchidos"
    else if k == 1 then "CPF inválido"
    else if k == 2 then "Email inválido"
    else "Telefone inválido"
  }

  /** The first failing check from `k` on, if any. */
  function FirstFailureFrom(c: Campos, k: nat): (r: Option<nat>)
    requires k <= Checks
    ensures r.None? <==> forall j | k <= j < Checks :: Passes(c, j)
    ensures r.Some? ==> k <= r.value < Checks && !Passes(c, r.value)
    ensures r.Some? ==> forall j | k <= j < r.value :: Passes(c, j)
    decreases Checks - k
  {
    if k == Checks then None
    else if !Passes(c, k) then Some(k)
    else FirstFailureFrom(c, k + 1)
  }

  /** The check whose 400 the handlers send: the first that fails. */
  function FirstFailure(c: Campos): (r: Option<nat>)
    ensures r.None? <==> forall j | 0 <= j < Checks :: Passes(c, j)
    ensures r.Some? ==> r.value < Checks && !Passes(c, r.value) && forall j | 0 <= j < r.value :: Passes(c, j)
  {
    FirstFailureFrom(c, 0)
  }

  /** A CPF that fails is reported even when the email and telephone fail too. */
  lemma CpfReportedBeforeEmail(c: Campos)
    requires Passes(c, 0) && !Passes(c, 1)
    ensures FirstFailure(c) == Some(1)
  {
  }

  /** The chain as the handlers run it, with the server's `validarCPF`. */
  method Validar(c: Campos) returns (failure: Option<nat>)
    ensures failure == FirstFailure(c)
  {
    if Falsy(c.nome) || Falsy(c.cpf) || Falsy(c.email) || Falsy(c.telefone) {
      return Some(0);
    }
    var cpfValido := ServerValidators.ValidarCpf(c.cpf.value);
    if !cpfValido {
      return Some(1);
    }
    if !ServerValidators.ValidarEmail(c.email.value) {
      return Some(2);
    }
    if !ServerValidators.ValidarTelefone(c.telefone.value) {
      return Some(3);
    }
    failure := None;
  }

  /** The row `POST` inserts and `PUT` writes: all five columns from the body. */
  function RowOf(c: Campos): M.Interessado {
    M.Interessado(c.nome, c.cpf, c.email, c.telefone, c.observacoes)
  }

  // What the pool's `query` resolves to.

  /** The header of an `INSERT`, `UPDATE` or `DELETE`, as an object. */
  function HeaderJson(h: ResultHeader): Json {
    Obj(map["insertId" := Num(h.insertId), "affectedRows" := Num(h.affectedRows)])
  }

  /** `[header, undefined]`, for a statement that returns no rows. */
  function DmlResult(h: ResultHeader): Json {
    Arr([HeaderJson(h), Undefined])
  }

  /** `[rows, fields]`, for a `SELECT`. */
  function SelectResult(rows: seq<Json>, fields: Json): Json {
    Arr([Arr(rows), fields])
  }

  /** The column descriptions of `interessados`, by name. */
  const Fields := Arr([Str("id"), Str("nome"), Str("cpf"), Str("email"), Str("telefone"), Str("observacoes")])

  /** A row of `interessados` as JSON. */
  function RowJson(row: Row<M.Interessado>): (j: Json)
    ensures Truthy(j)
  {
    Obj(map[
      "id" := Num(row.id),
      "nome" := Column(row.data.nome),
      "cpf" := Column(row.data.cpf),
      "email" := Column(row.data.email),
      "telefone" := Column(row.data.telefone),
      "observacoes" := Column(row.data.observacoes)])
  }

  // The answers as written: the pair is used as the result.

  /** `res.json(interessados)` with `interessados` the whole pair. */
  function ListAnswerAsWritten(result: Json): Response {
    Response(200, Some(result))
  }

  /** `const [interessado] = pair`: the rows array, never a row. */
  function FindAnswerAsWritten(result: Json): Response {
    var interessado := Index(result, 0);
    if !Truthy(interessado) then MessageResponse(404, "error", NaoEncontrado)
    else Response(200, Some(interessado))
  }

  /** `{ id: pair.insertId, ... }`: arrays have no `insertId`. */
  function CreateAnswerAsWritten(result: Json): Response {
    Response(201, Some(Obj(map["id" := Prop(result, "insertId"), "message" := Str("Interessado criado com sucesso")])))
  }

  /** `pair.affectedRows === 0`: arrays have no `affectedRows`. */
  function UpdateAnswerAsWritten(result: Json): Response {
    if Prop(result, "affectedRows") == Num(0) then MessageResponse(404, "error", NaoEncontrado)
    else MessageResponse(200, "message", "Interessado atualizado com sucesso")
  }

  function RemoveAnswerAsWritten(result: Json): Response {
    if Prop(result, "affectedRows") == Num(0) then MessageResponse(404, "error", NaoEncontrado)
    else MessageResponse(200, "message", "Interessado removido com sucesso")
  }

  // The corrected answers: `const [result] = await query(...)`.

  function ListAnswer(result: Json): Response {
    Response(200, Some(Index(result, 0)))
  }

  function FindAnswer(result: Json): Response {
    var interessado := Index(Index(result, 0), 0);
    if !Truthy(interessado) then MessageResponse(404, "error", NaoEncontrado)
    else Response(200, Some(interessado))
  }

  function CreateAnswer(result: Json): Response {
    Response(201, Some(Obj(map["id" := Prop(Index(result, 0), "insertId"), "message" := Str("Interessado criado com sucesso")])))
  }

  function UpdateAnswer(result: Json): Response {
    if Prop(Index(result, 0), "affectedRows") == Num(0) then MessageResponse(404, "error", NaoEncontrado)
    else MessageResponse(200, "message", "Interessado atualizado com sucesso")
  }

  function RemoveAnswer(result: Json): Response {
    if Prop(Index(result, 0), "affectedRows") == Num(0) then MessageResponse(404, "error", NaoEncontrado)
    else MessageResponse(200, "message", "Interessado removido com sucesso")
  }

  // What the answers as written do wrong, for every driver result.

  /** `GET /` as written sends `[rows, fields]`, not the rows. */
  lemma ListAsWrittenSendsPair(rows: seq<Json>, fields: Json)
    ensures ListAnswerAsWritten(SelectResult(rows, fields)).body == Some(Arr([Arr(rows), fields]))
    ensures ListAnswer(SelectResult(rows, fields)).body == Some(Arr(rows))
    ensures |rows| != 2 ==> ListAnswerAsWritten(SelectResult(rows, fields)) != ListAnswer(SelectResult(rows, fields))
  {
    if |rows| != 2 {
      assert |ListAnswerAsWritten(SelectResult(rows, fields)).body.value.items| == 2;
    }
  }

  /** `GET /:id` as written never answers 404, even when no row matched. */
  lemma FindAsWrittenNeverNotFound(rows: seq<Json>, fields: Json)
    ensures FindAnswerAsWritten(SelectResult(rows, fields)) == Response(200, Some(Arr(rows)))
    ensures FindAnswer(SelectResult([], fields)) == MessageResponse(404, "error", NaoEncontrado)
  {
  }

  /** `POST` as written answers with an `undefined` id, which `res.json` drops. */
  lemma CreateAsWrittenLosesId(insertId: nat)
    ensures Prop(CreateAnswerAsWritten(DmlResult(ResultHeader(insertId, 1))).body.value, "id") == Undefined
    ensures Prop(CreateAnswer(DmlResult(ResultHeader(insertId, 1))).body.value, "id") == Num(insertId)
  {
  }

  /** `PUT` as written answers 200 even when no row matched. */
  lemma UpdateAsWrittenNeverNotFound(affectedRows: nat)
    ensures UpdateAnswerAsWritten(DmlResult(ResultHeader(0, affectedRows))).status == 200
    ensures UpdateAnswer(DmlResult(ResultHeader(0, 0))).status == 404
  {
  }

  /** `DELETE` as written answers 200 even when no row was removed. */
  lemma RemoveAsWrittenNeverNotFound(affectedRows: nat)
    ensures RemoveAnswerAsWritten(DmlResult(ResultHeader(0, affectedRows))).status == 200
    ensures RemoveAnswer(DmlResult(ResultHeader(0, 0))).status == 404
  {
  }

  // The handlers, with the corrected answers.

  /** The rows of `SELECT * FROM interessados ORDER BY nome`. */
  function Listed(rows: map<nat, M.Interessado>, n: nat): seq<Row<M.Interessado>> {
    Ordering.SortBy(Scan(rows, n), M.NomeLe)
  }

  /** `GET /`: 200 with every row, ordered by `nome`; 500 when the query fails. */
  method Get(t: Table<M.Interessado>, fault: Fault) returns (response: Response)
    requires t.Valid()
    ensures Outcome(fault, 0).Some? ==> response == MessageResponse(500, "error", "Erro ao buscar interessados")
    ensures Outcome(fault, 0).None? ==> response == Response(200, Some(Arr(JsonList(Listed(t.rows, t.autoIncrement), RowJson))))
    ensures Outcome(fault, 0).None? ==> Ordering.Sorted(Listed(t.rows, t.autoIncrement), M.NomeLe)
  {
    M.NomeLeIsTotalPreorder();
    var rows := t.SelectOrderedBy(M.NomeLe, Outcome(fault, 0));
    if rows.Err? {
      return MessageResponse(500, "error", "Erro ao buscar interessados");
    }
    response := ListAnswer(SelectResult(JsonList(rows.value, RowJson), Fields));
  }

  /** `GET /:id`: 404 exactly when no row has the key. */
  method GetById(t: Table<M.Interessado>, id: nat, fault: Fault) returns (response: Response)
    ensures Outcome(fault, 0).Some? ==> response == MessageResponse(500, "error", "Erro ao buscar interessado")
    ensures Outcome(fault, 0).None? && id !in t.rows ==> response == MessageResponse(404, "error", NaoEncontrado)
    ensures Outcome(fault, 0).None? && id in t.rows ==> response == Response(200, Some(RowJson(Row(id, t.rows[id]))))
  {
    var rows := t.SelectWhereId(id, Outcome(fault, 0));
    if rows.Err? {
      return MessageResponse(500, "error", "Erro ao buscar interessado");
    }
    response := FindAnswer(SelectResult(JsonList(rows.value, RowJson), Fields));
  }

  /**
   * `POST /`: the first failing check is answered with 400 and nothing is
   * stored; otherwise the five fields are inserted and the answer is 201
   * with the new key.
   */
  method Post(t: Table<M.Interessado>, body: Body, fault: Fault) returns (response: Response)
    requires t.Valid()
    modifies t
    ensures t.Valid()
    ensures FirstFailure(CamposOf(body)).Some? ==>
      && response == MessageResponse(400, "error", Message(FirstFailure(CamposOf(body)).value))
      && t.rows == old(t.rows) && t.autoIncrement == old(t.autoIncrement)
    ensures FirstFailure(CamposOf(body)).None? && Outcome(fault, 0).Some? ==>
      && response == MessageResponse(500, "error", "Erro ao criar interessado")
      && t.rows == old(t.rows) && t.autoIncrement == old(t.autoIncrement)
    ensures FirstFailure(CamposOf(body)).None? && Outcome(fault, 0).None? ==>
      && old(t.autoIncrement) !in old(t.rows)
      && t.rows == old(t.rows)[old(t.autoIncrement) := RowOf(CamposOf(body))]
      && t.autoIncrement == old(t.autoIncrement) + 1
      && response == Response(201, Some(Obj(map[
        "id" := Num(old(t.autoIncrement)),
        "message" := Str("Interessado criado com sucesso")])))
  {
    var c := CamposOf(body);
    var failure := Validar(c);
    if failure.Some? {
      return MessageResponse(400, "error", Message(failure.value));
    }
    var result := t.Insert(RowOf(c), Outcome(fault, 0));
    if result.Err? {
      return MessageResponse(500, "error", "Erro ao criar interessado");
    }
    response := CreateAnswer(DmlResult(ResultHeader(result.value, 1)));
  }

  /**
   * `PUT /:id`: the same checks; then 404 when no row has the key, otherwise
   * the five columns of that row are replaced and the answer is 200.
   */
  method Put(t: Table<M.Interessado>, id: nat, body: Body, fault: Fault) returns (response: Response)
    requires t.Valid()
    modifies t
    ensures t.Valid() && t.autoIncrement == old(t.autoIncrement)
    ensures FirstFailure(CamposOf(body)).Some? ==>
      && response == MessageResponse(400, "error", Message(FirstFailure(CamposOf(body)).value))
      && t.rows == old(t.rows)
    ensures FirstFailure(CamposOf(body)).None? && Outcome(fault, 0).Some? ==>
      response == MessageResponse(500, "error", "Erro ao atualizar interessado") && t.rows == old(t.rows)
    ensures FirstFailure(CamposOf(body)).None? && Outcome(fault, 0).None? && id !in old(t.rows) ==>
      response == MessageResponse(404, "error", NaoEncontrado) && t.rows == old(t.rows)
    ensures FirstFailure(CamposOf(body)).None? && Outcome(fault, 0).None? && id in old(t.rows) ==>
      && response == MessageResponse(200, "message", "Interessado atualizado com sucesso")
      && t.rows == old(t.rows)[id := RowOf(CamposOf(body))]
  {
    var c := CamposOf(body);
    var failure := Validar(c);
    if failure.Some? {
      return MessageResponse(400, "error", Message(failure.value));
    }
    var result := t.UpdateWhereId(id, _ => RowOf(c), Outcome(fault, 0));
    if result.Err? {
      return MessageResponse(500, "error", "Erro ao atualizar interessado");
    }
    response := UpdateAnswer(DmlResult(ResultHeader(0, result.value)));
  }

  /** `DELETE /:id`: 404 when no row was removed, otherwise 200 with a message. */
  method Delete(t: Table<M.Interessado>, id: nat, fault: Fault) returns (response: Response)
    requires t.Valid()
    modifies t
    ensures t.Valid() && t.autoIncrement == old(t.autoIncrement)
    ensures Outcome(fault, 0).Some? ==>
      response == MessageResponse(500, "error", "Erro ao remover interessado") && t.rows == old(t.rows)
    ensures Outcome(fault, 0).None? && id !in old(t.rows) ==>
      response == MessageResponse(404, "error", NaoEncontrado) && t.rows == old(t.rows)
    ensures Outcome(fault, 0).None? && id in old(t.rows) ==>
      response == MessageResponse(200, "message", "Interessado removido com sucesso") && t.rows == old(t.rows) - {id}
  {
    var result := t.DeleteWhereId(id, Outcome(fault, 0));
    if result.Err? {
      return MessageResponse(500, "error", "Erro ao remover interessado");
    }
    response := RemoveAnswer(DmlResult(ResultHeader(0, result.value)));
  }
}
