/**
 * The server's `Interessado` model (`src/server/models/Interessado.js`): static
 * methods over the `interessados` table that re-read after every write,
 * answer `null` for a missing key, and replace every driver error by an
 * `Error` with a message of their own.
 */
module InteressadoModel {
  import opened Common
  import opened Database
  import Ordering

  /** A row of `interessados`, without its key. */
  datatype Interessado = Interessado(
    nome: Option<string>,
    cpf: Option<string>,
    email: Option<string>,
    telefone: Option<string>,
    observacoes: Option<string>)

  /** The four fields `create` and `update` destructure from their argument. */
  datatype Dados = Dados(
    nome: Option<string>,
    cpf: Option<string>,
    email: Option<string>,
    telefone: Option<string>)

  /** An instance of the model class: its constructor copies these columns of a row. */
  datatype Record = Record(
    id: nat,
    nome: Option<string>,
    email: Option<string>,
    telefone: Option<string>,
    cpf: Option<string>)

  /** `new Interessado(row)`. */
  function FromRow(row: Row<Interessado>): Record {
    Record(row.id, row.data.nome, row.data.email, row.data.telefone, row.data.cpf)
  }

  /** `rows.map(row => new Interessado(row))`. */
  function FromRows(rows: seq<Row<Interessado>>): (recs: seq<Record>)
    ensures |recs| == |rows|
    ensures forall i | 0 <= i < |rows| :: recs[i] == FromRow(rows[i])
  {
    seq(|rows|, i requires 0 <= i < |rows| => FromRow(rows[i]))
  }

  /** The row `create` inserts: the four fields, and no `observacoes`. */
  function NewRow(dados: Dados): Interessado {
    Interessado(dados.nome, dados.cpf, dados.email, dados.telefone, None)
  }

  /** What `update` writes: the four fields replaced, `observacoes` kept. */
  function Replaced(row: Interessado, dados: Dados): Interessado {
    row.(nome := dados.nome, cpf := dados.cpf, email := dados.email, telefone := dados.telefone)
  }

  /** The record of a row whose fields came from `dados`. */
  function RecordOf(id: nat, dados: Dados): Record {
    Record(id, dados.nome, dados.email, dados.telefone, dados.cpf)
  }

  /** `ORDER BY nome`. */
  predicate NomeLe(a: Row<Interessado>, b: Row<Interessado>) {
    Ordering.NullsFirstLe(a.data.nome, b.data.nome)
  }

  lemma NomeLeIsTotalPreorder()
    ensures Ordering.TotalPreorder(NomeLe)
  {
    Ordering.NullsFirstLeIsTotalPreorder();
    assert forall a: Row<Interessado>, b: Row<Interessado> :: NomeLe(a, b) == Ordering.NullsFirstLe(a.data.nome, b.data.nome);
  }

  /** What `findAll` returns for a table: its rows ordered by `nome`, as records. */
  function Listing(rows: map<nat, Interessado>, n: nat): seq<Record> {
    FromRows(Ordering.SortBy(Scan(rows, n), NomeLe))
  }

  /** The listing holds the record of every row once, and nothing else. */
  lemma ListingIsTable(rows: map<nat, Interessado>, n: nat)
    requires forall id | id in rows :: id < n
    ensures |Listing(rows, n)| == |rows|
    ensures forall rec :: rec in Listing(rows, n) <==> rec.id in rows && rec == FromRow(Row(rec.id, rows[rec.id]))
  {
    var sorted := Ordering.SortBy(Scan(rows, n), NomeLe);
    ScanIsTable(rows, n);
    assert forall x :: x in sorted <==> x in multiset(Scan(rows, n));
    var recs := Listing(rows, n);
    forall rec
      ensures rec in recs <==> rec.id in rows && rec == FromRow(Row(rec.id, rows[rec.id]))
    {
      if rec in recs {
        var i :| 0 <= i < |recs| && recs[i] == rec;
        assert sorted[i] in sorted;
      }
      if rec.id in rows && rec == FromRow(Row(rec.id, rows[rec.id])) {
        assert Row(rec.id, rows[rec.id]) in sorted;
        var i :| 0 <= i < |sorted| && sorted[i] == Row(rec.id, rows[rec.id]);
        assert recs[i] == rec;
      }
    }
  }

  /** The listing is ordered by `nome`, NULL first. */
  lemma ListingSorted(rows: map<nat, Interessado>, n: nat)
    ensures var recs := Listing(rows, n);
      forall i, j | 0 <= i < j < |recs| :: Ordering.NullsFirstLe(recs[i].nome, recs[j].nome)
  {
    NomeLeIsTotalPreorder();
    Ordering.SortBySorted(Scan(rows, n), NomeLe);
  }

  /** `findAll`: `SELECT * FROM interessados ORDER BY nome`, each row made a record. */
  method FindAll(t: Table<Interessado>, fault: Fault) returns (r: Result<seq<Record>, Error>)
    requires t.Valid()
    ensures Outcome(fault, 0).Some? ==> r == Err(Thrown("Erro ao buscar interessados"))
    ensures Outcome(fault, 0).None? ==> r == Ok(Listing(t.rows, t.autoIncrement))
  {
    var rows := t.SelectOrderedBy(NomeLe, Outcome(fault, 0));
    if rows.Err? {
      return Err(Thrown("Erro ao buscar interessados"));
    }
    r := Ok(FromRows(rows.value));
  }

  /** `findById`: the record of the row with the key, or `null`. */
  method FindById(t: Table<Interessado>, id: nat, fault: Fault) returns (r: Result<Option<Record>, Error>)
    ensures Outcome(fault, 0).Some? ==> r == Err(Thrown("Erro ao buscar interessado"))
    ensures Outcome(fault, 0).None? && id in t.rows ==> r == Ok(Some(FromRow(Row(id, t.rows[id]))))
    ensures Outcome(fault, 0).None? && id !in t.rows ==> r == Ok(None)
  {
    var rows := t.SelectWhereId(id, Outcome(fault, 0));
    if rows.Err? {
      return Err(Thrown("Erro ao buscar interessado"));
    }
    if |rows.value| == 0 {
      return Ok(None);
    }
    r := Ok(Some(FromRow(rows.value[0])));
  }

  /**
   * `create`: insert the four fields, then return `findById(insertId)`. The
   * re-read is returned without `await`, so its failure escapes `create`'s own
   * `catch` and keeps the message of `findById`.
   */
  method Create(t: Table<Interessado>, dados: Dados, fault: Fault) returns (r: Result<Option<Record>, Error>)
    requires t.Valid()
    modifies t
    ensures t.Valid()
    ensures Outcome(fault, 0).Some? ==>
      && r == Err(Thrown("Erro ao criar interessado"))
      && t.rows == old(t.rows) && t.autoIncrement == old(t.autoIncrement)
    ensures Outcome(fault, 0).None? ==>
      && old(t.autoIncrement) !in old(t.rows)
      && t.rows == old(t.rows)[old(t.autoIncrement) := NewRow(dados)]
      && t.autoIncrement == old(t.autoIncrement) + 1
    ensures Outcome(fault, 0).None? && Outcome(fault, 1).Some? ==> r == Err(Thrown("Erro ao buscar interessado"))
    ensures Outcome(fault, 0).None? && Outcome(fault, 1).None? ==> r == Ok(Some(RecordOf(old(t.autoIncrement), dados)))
  {
    var result := t.Insert(NewRow(dados), Outcome(fault, 0));
    if result.Err? {
      return Err(Thrown("Erro ao criar interessado"));
    }
    r := FindById(t, result.value, Shift(fault, 1));
  }

  /**
   * `update`: replace the four fields of the row with the key; `null` when
   * no row matched, otherwise the re-read record.
   */
  method Update(t: Table<Interessado>, id: nat, dados: Dados, fault: Fault) returns (r: Result<Option<Record>, Error>)
    requires t.Valid()
    modifies t
    ensures t.Valid() && t.autoIncrement == old(t.autoIncrement)
    ensures Outcome(fault, 0).Some? ==> r == Err(Thrown("Erro ao atualizar interessado")) && t.rows == old(t.rows)
    ensures Outcome(fault, 0).None? && id !in old(t.rows) ==> r == Ok(None) && t.rows == old(t.rows)
    ensures Outcome(fault, 0).None? && id in old(t.rows) ==> t.rows == old(t.rows)[id := Replaced(old(t.rows)[id], dados)]
    ensures Outcome(fault, 0).None? && id in old(t.rows) && Outcome(fault, 1).Some? ==>
      r == Err(Thrown("Erro ao buscar interessado"))
    ensures Outcome(fault, 0).None? && id in old(t.rows) && Outcome(fault, 1).None? ==>
      r == Ok(Some(RecordOf(id, dados)))
  {
    var result := t.UpdateWhereId(id, row => Replaced(row, dados), Outcome(fault, 0));
    if result.Err? {
      return Err(Thrown("Erro ao atualizar interessado"));
    }
    if result.value == 0 {
      return Ok(None);
    }
    r := FindById(t, id, Shift(fault, 1));
  }

  /** `delete`: `true` exactly when a row was removed. */
  method Delete(t: Table<Interessado>, id: nat, fault: Fault) returns (r: Result<bool, Error>)
    requires t.Valid()
    modifies t
    ensures t.Valid() && t.autoIncrement == old(t.autoIncrement)
    ensures Outcome(fault, 0).Some? ==> r == Err(Thrown("Erro ao remover interessado")) && t.rows == old(t.rows)
    ensures Outcome(fault, 0).None? ==> r == Ok(id in old(t.rows)) && t.rows == old(t.rows) - {id}
  {
    var result := t.DeleteWhereId(id, Outcome(fault, 0));
    if result.Err? {
      return Err(Thrown("Erro ao remover interessado"));
    }
    r := Ok(result.value > 0);
  }
}
