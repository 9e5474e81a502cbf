/**
 * The older models `src/models/Interessado.js`: one statement per call
 * through the pool's `execute`, and the driver's raw result handed back: the
 * `INSERT`/`UPDATE`/`DELETE` header, all rows, or the first matching row.
 * Errors propagate unchanged.
 *
 * `execute` refuses a bound value that is `undefined` before it sends the
 * statement, so a missing field makes `create` and `update` fail with no
 * change to the table.
 */
module LegacyInteressadoModel {
  import opened Common
  import opened Database
  import M = InteressadoModel

  /** The driver's refusal of an `undefined` bound value. */
  const UndefinedBind := DbError("undefined bind parameter")

  /** Every value to bind is defined. */
  predicate Bindable(d: M.Dados) {
    d.nome.Some? && d.cpf.Some? && d.email.Some? && d.telefone.Some?
  }

  /** `create`: insert `cpf`, `nome`, `telefone`, `email`; the header carries the new key. */
  method Create(t: Table<M.Interessado>, dados: M.Dados, fault: Fault) returns (r: Result<ResultHeader, Error>)
    requires t.Valid()
    modifies t
    ensures t.Valid()
    ensures !Bindable(dados) ==>
      r == Err(Driver(UndefinedBind)) && t.rows == old(t.rows) && t.autoIncrement == old(t.autoIncrement)
    ensures Bindable(dados) && Outcome(fault, 0).Some? ==>
      r == Err(Driver(fault.error)) && t.rows == old(t.rows) && t.autoIncrement == old(t.autoIncrement)
    ensures Bindable(dados) && Outcome(fault, 0).None? ==>
      && r == Ok(ResultHeader(old(t.autoIncrement), 1))
      && old(t.autoIncrement) !in old(t.rows)
      && t.rows == old(t.rows)[old(t.autoIncrement) := M.NewRow(dados)]
      && t.autoIncrement == old(t.autoIncrement) + 1
  {
    if !Bindable(dados) {
      return Err(Driver(UndefinedBind));
    }
    var result := t.Insert(M.NewRow(dados), Outcome(fault, 0));
    if result.Err? {
      return Err(Driver(result.error));
    }
    r := Ok(ResultHeader(result.value, 1));
  }

  /** `findAll`: every row, in no order the code asks for (here: by key). */
  method FindAll(t: Table<M.Interessado>, fault: Fault) returns (r: Result<seq<Row<M.Interessado>>, Error>)
    requires t.Valid()
    ensures Outcome(fault, 0).Some? ==> r == Err(Driver(fault.error))
    ensures Outcome(fault, 0).None? ==> r.Ok? && |r.value| == |t.rows|
    ensures Outcome(fault, 0).None? ==> forall x :: x in r.value <==> x.id in t.rows && t.rows[x.id] == x.data
  {
    var rows := t.SelectAll(Outcome(fault, 0));
    if rows.Err? {
      return Err(Driver(rows.error));
    }
    r := Ok(rows.value);
  }

  /** `findById`: `rows[0]`, which is `undefined` when no row has the key. */
  method FindById(t: Table<M.Interessado>, id: nat, fault: Fault) returns (r: Result<Option<Row<M.Interessado>>, Error>)
    ensures Outcome(fault, 0).Some? ==> r == Err(Driver(fault.error))
    ensures Outcome(fault, 0).None? && id in t.rows ==> r == Ok(Some(Row(id, t.rows[id])))
    ensures Outcome(fault, 0).None? && id !in t.rows ==> r == Ok(None)
  {
    var rows := t.SelectWhereId(id, Outcome(fault, 0));
    if rows.Err? {
      return Err(Driver(rows.error));
    }
    r := if |rows.value| > 0 then Ok(Some(rows.value[0])) else Ok(None);
  }

  /** `update`: set the four columns of the row with the key; `affectedRows` tells whether there was one. */
  method Update(t: Table<M.Interessado>, id: nat, dados: M.Dados, fault: Fault) returns (r: Result<ResultHeader, Error>)
    requires t.Valid()
    modifies t
    ensures t.Valid() && t.autoIncrement == old(t.autoIncrement)
    ensures !Bindable(dados) ==> r == Err(Driver(UndefinedBind)) && t.rows == old(t.rows)
    ensures Bindable(dados) && Outcome(fault, 0).Some? ==> r == Err(Driver(fault.error)) && t.rows == old(t.rows)
    ensures Bindable(dados) && Outcome(fault, 0).None? && id !in old(t.rows) ==>
      r == Ok(ResultHeader(0, 0)) && t.rows == old(t.rows)
    ensures Bindable(dados) && Outcome(fault, 0).None? && id in old(t.rows) ==>
      r == Ok(ResultHeader(0, 1)) && t.rows == old(t.rows)[id := M.Replaced(old(t.rows)[id], dados)]
  {
    if !Bindable(dados) {
      return Err(Driver(UndefinedBind));
    }
    var result := t.UpdateWhereId(id, row => M.Replaced(row, dados), Outcome(fault, 0));
    if result.Err? {
      return Err(Driver(result.error));
    }
    r := Ok(ResultHeader(0, result.value));
  }

  /** `delete`: remove the row with the key, if any. */
  method Delete(t: Table<M.Interessado>, id: nat, fault: Fault) returns (r: Result<ResultHeader, Error>)
    requires t.Valid()
    modifies t
    ensures t.Valid() && t.autoIncrement == old(t.autoIncrement)
    ensures Outcome(fault, 0).Some? ==> r == Err(Driver(fault.error)) && t.rows == old(t.rows)
    ensures Outcome(fault, 0).None? ==>
      && r == Ok(ResultHeader(0, if id in old(t.rows) then 1 else 0))
      && t.rows == old(t.rows) - {id}
  {
    var result := t.DeleteWhereId(id, Outcome(fault, 0));
    if result.Err? {
      return Err(Driver(result.error));
    }
    r := Ok(ResultHeader(0, result.value));
  }
}

/**
 * The older model `src/models/Filhote.js`: the same five calls over
 * `filhotes`, writing only `especie` and `raca` and no timestamp.
 */
module LegacyFilhoteModel {
  import opened Common
  import opened Database
  import F = FilhoteModel
  import LegacyInteressadoModel

  /** Both values to bind are defined. */
  predicate Bindable(d: F.Dados) {
    d.especie.Some? && d.raca.Some?
  }

  /** The row `create` inserts: no column besides the two is written. */
  function NewRow(d: F.Dados): F.Filhote {
    F.Filhote(d.especie, d.raca, None, None)
  }

  /** What `update` writes: the two fields, and no timestamp. */
  function Rewritten(row: F.Filhote, d: F.Dados): F.Filhote {
    row.(especie := d.especie, raca := d.raca)
  }

  /** `create`: insert `especie` and `raca`; the header carries the new key. */
  method Create(t: Table<F.Filhote>, dados: F.Dados, fault: Fault) returns (r: Result<ResultHeader, Error>)
    requires t.Valid()
    modifies t
    ensures t.Valid()
    ensures !Bindable(dados) ==>
      && r == Err(Driver(LegacyInteressadoModel.UndefinedBind))
      && t.rows == old(t.rows) && t.autoIncrement == old(t.autoIncrement)
    ensures Bindable(dados) && Outcome(fault, 0).Some? ==>
      r == Err(Driver(fault.error)) && t.rows == old(t.rows) && t.autoIncrement == old(t.autoIncrement)
    ensures Bindable(dados) && Outcome(fault, 0).None? ==>
      && r == Ok(ResultHeader(old(t.autoIncrement), 1))
      && old(t.autoIncrement) !in old(t.rows)
      && t.rows == old(t.rows)[old(t.autoIncrement) := NewRow(dados)]
      && t.autoIncrement == old(t.autoIncrement) + 1
  {
    if !Bindable(dados) {
      return Err(Driver(LegacyInteressadoModel.UndefinedBind));
    }
    var result := t.Insert(NewRow(dados), Outcome(fault, 0));
    if result.Err? {
      return Err(Driver(result.error));
    }
    r := Ok(ResultHeader(result.value, 1));
  }

  /** `findAll`: every row, in no order the code asks for (here: by key). */
  method FindAll(t: Table<F.Filhote>, fault: Fault) returns (r: Result<seq<Row<F.Filhote>>, Error>)
    requires t.Valid()
    ensures Outcome(fault, 0).Some? ==> r == Err(Driver(fault.error))
    ensures Outcome(fault, 0).None? ==> r.Ok? && |r.value| == |t.rows|
    ensures Outcome(fault, 0).None? ==> forall x :: x in r.value <==> x.id in t.rows && t.rows[x.id] == x.data
  {
    var rows := t.SelectAll(Outcome(fault, 0));
    if rows.Err? {
      return Err(Driver(rows.error));
    }
    r := Ok(rows.value);
  }

  /** `findById`: `rows[0]`, which is `undefined` when no row has the key. */
  method FindById(t: Table<F.Filhote>, id: nat, fault: Fault) returns (r: Result<Option<Row<F.Filhote>>, Error>)
    ensures Outcome(fault, 0).Some? ==> r == Err(Driver(fault.error))
    ensures Outcome(fault, 0).None? && id in t.rows ==> r == Ok(Some(Row(id, t.rows[id])))
    ensures Outcome(fault, 0).None? && id !in t.rows ==> r == Ok(None)
  {
    var rows := t.SelectWhereId(id, Outcome(fault, 0));
    if rows.Err? {
      return Err(Driver(rows.error));
    }
    r := if |rows.value| > 0 then Ok(Some(rows.value[0])) else Ok(None);
  }

  /** `update`: set `especie` and `raca` of the row with the key only. */
  method Update(t: Table<F.Filhote>, id: nat, dados: F.Dados, fault: Fault) returns (r: Result<ResultHeader, Error>)
    requires t.Valid()
    modifies t
    ensures t.Valid() && t.autoIncrement == old(t.autoIncrement)
    ensures !Bindable(dados) ==> r == Err(Driver(LegacyInteressadoModel.UndefinedBind)) && t.rows == old(t.rows)
    ensures Bindable(dados) && Outcome(fault, 0).Some? ==> r == Err(Driver(fault.error)) && t.rows == old(t.rows)
    ensures Bindable(dados) && Outcome(fault, 0).None? && id !in old(t.rows) ==>
      r == Ok(ResultHeader(0, 0)) && t.rows == old(t.rows)
    ensures Bindable(dados) && Outcome(fault, 0).None? && id in old(t.rows) ==>
      r == Ok(ResultHeader(0, 1)) && t.rows == old(t.rows)[id := Rewritten(old(t.rows)[id], dados)]
  {
    if !Bindable(dados) {
      return Err(Driver(LegacyInteressadoModel.UndefinedBind));
    }
    var result := t.UpdateWhereId(id, row => Rewritten(row, dados), Outcome(fault, 0));
    if result.Err? {
      return Err(Driver(result.error));
    }
    r := Ok(ResultHeader(0, result.value));
  }

  /** `delete`: remove the row with the key; `affectedRows` tells whether it existed. */
  method Delete(t: Table<F.Filhote>, id: nat, fault: Fault) returns (r: Result<ResultHeader, Error>)
    requires t.Valid()
    modifies t
    ensures t.Valid() && t.autoIncrement == old(t.autoIncrement)
    ensures Outcome(fault, 0).Some? ==> r == Err(Driver(fault.error)) && t.rows == old(t.rows)
    ensures Outcome(fault, 0).None? ==>
      && r == Ok(ResultHeader(0, if id in old(t.rows) then 1 else 0))
      && t.rows == old(t.rows) - {id}
  {
    var result := t.DeleteWhereId(id, Outcome(fault, 0));
    if result.Err? {
      return Err(Driver(result.error));
    }
    r := Ok(ResultHeader(0, result.value));
  }
}
