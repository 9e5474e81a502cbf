/**
 * The server's `Filhote` model (`src/server/models/Filhote.js`): static
 * methods over the `filhotes` table that stamp `created_at` and `updated_at`
 * with the current time, return rows as the driver gives them, and rethrow
 * driver errors unchanged.
 */
module FilhoteModel {
  import opened Common
  import opened Database
  import Ordering

  /**
   * The `YYYY-MM-DD HH:MM:SS` text written for "now", by the instant it
   * names; texts of that shape order as their instants do.
   */
  type Time = nat

  /** A row of `filhotes`, without its key. */
  datatype Filhote = Filhote(
    especie: Option<string>,
    raca: Option<string>,
    createdAt: Option<Time>,
    updatedAt: Option<Time>)

  /** The two fields `create` and `update` destructure from their argument. */
  datatype Dados = Dados(especie: Option<string>, raca: Option<string>)

  /** `ORDER BY created_at DESC`. */
  predicate CreatedAtDesc(a: Row<Filhote>, b: Row<Filhote>) {
    Ordering.NullsLastDescLe(a.data.createdAt, b.data.createdAt)
  }

  lemma CreatedAtDescIsTotalPreorder()
    ensures Ordering.TotalPreorder(CreatedAtDesc)
  {
    Ordering.NullsLastDescLeIsTotalPreorder();
    assert forall a: Row<Filhote>, b: Row<Filhote> ::
      CreatedAtDesc(a, b) == Ordering.NullsLastDescLe(a.data.createdAt, b.data.createdAt);
  }

  /** What `findAll` returns: the rows, latest `created_at` first. */
  function Listing(rows: map<nat, Filhote>, n: nat): seq<Row<Filhote>> {
    Ordering.SortBy(Scan(rows, n), CreatedAtDesc)
  }

  /** The listing holds every row once, newest first, rows without a creation time last. */
  lemma ListingIsTable(rows: map<nat, Filhote>, n: nat)
    requires forall id | id in rows :: id < n
    ensures |Listing(rows, n)| == |rows|
    ensures forall x :: x in Listing(rows, n) <==> x.id in rows && rows[x.id] == x.data
    ensures var l := Listing(rows, n);
      forall i, j | 0 <= i < j < |l| :: Ordering.NullsLastDescLe(l[i].data.createdAt, l[j].data.createdAt)
  {
    ScanIsTable(rows, n);
    assert forall x :: x in Listing(rows, n) <==> x in multiset(Scan(rows, n));
    CreatedAtDescIsTotalPreorder();
    Ordering.SortBySorted(Scan(rows, n), CreatedAtDesc);
  }

  /** `findAll`. */
  method FindAll(t: Table<Filhote>, fault: Fault) returns (r: Result<seq<Row<Filhote>>, Error>)
    requires t.Valid()
    ensures Outcome(fault, 0).Some? ==> r == Err(Driver(fault.error))
    ensures Outcome(fault, 0).None? ==> r == Ok(Listing(t.rows, t.autoIncrement))
  {
    var rows := t.SelectOrderedBy(CreatedAtDesc, Outcome(fault, 0));
    if rows.Err? {
      return Err(Driver(rows.error));
    }
    r := Ok(rows.value);
  }

  /** `findById`: the row, or `null`. */
  method FindById(t: Table<Filhote>, id: nat, fault: Fault) returns (r: Result<Option<Row<Filhote>>, Error>)
    ensures Outcome(fault, 0).Some? ==> r == Err(Driver(fault.error))
    ensures Outcome(fault, 0).None? && id in t.rows ==> r == Ok(Some(Row(id, t.rows[id])))
    ensures Outcome(fault, 0).None? && id !in t.rows ==> r == Ok(None)
  {
    var rows := t.SelectWhereId(id, Outcome(fault, 0));
    if rows.Err? {
      return Err(Driver(rows.error));
    }
    r := if |rows.value| > 0 then Ok(Some(rows.value[0])) else Ok(None);
  }

  /** `create`: insert the two fields with `created_at = now`, then re-read the row. */
  method Create(t: Table<Filhote>, dados: Dados, now: Time, fault: Fault) returns (r: Result<Option<Row<Filhote>>, Error>)
    requires t.Valid()
    modifies t
    ensures t.Valid()
    ensures Outcome(fault, 0).Some? ==>
      r == Err(Driver(fault.error)) && t.rows == old(t.rows) && t.autoIncrement == old(t.autoIncrement)
    ensures Outcome(fault, 0).None? ==>
      && old(t.autoIncrement) !in old(t.rows)
      && t.rows == old(t.rows)[old(t.autoIncrement) := Filhote(dados.especie, dados.raca, Some(now), None)]
      && t.autoIncrement == old(t.autoIncrement) + 1
    ensures Outcome(fault, 0).None? && Outcome(fault, 1).Some? ==> r == Err(Driver(fault.error))
    ensures Outcome(fault, 0).None? && Outcome(fault, 1).None? ==>
      r == Ok(Some(Row(old(t.autoIncrement), Filhote(dados.especie, dados.raca, Some(now), None))))
  {
    var result := t.Insert(Filhote(dados.especie, dados.raca, Some(now), None), Outcome(fault, 0));
    if result.Err? {
      return Err(Driver(result.error));
    }
    r := FindById(t, result.value, Shift(fault, 1));
  }

  /** What `update` writes: both fields and `updated_at = now`, whether or not anything changed. */
  function Stamped(row: Filhote, dados: Dados, now: Time): Filhote {
    row.(especie := dados.especie, raca := dados.raca, updatedAt := Some(now))
  }

  /**
   * `update`: the `UPDATE` result is not looked at; the answer is
   * `findById(id)`, so `null` when the key has no row.
   */
  method Update(t: Table<Filhote>, id: nat, dados: Dados, now: Time, fault: Fault)
    returns (r: Result<Option<Row<Filhote>>, Error>)
    requires t.Valid()
    modifies t
    ensures t.Valid() && t.autoIncrement == old(t.autoIncrement)
    ensures Outcome(fault, 0).Some? ==> r == Err(Driver(fault.error)) && t.rows == old(t.rows)
    ensures Outcome(fault, 0).None? && id in old(t.rows) ==> t.rows == old(t.rows)[id := Stamped(old(t.rows)[id], dados, now)]
    ensures Outcome(fault, 0).None? && id !in old(t.rows) ==> t.rows == old(t.rows)
    ensures Outcome(fault, 0).None? && Outcome(fault, 1).Some? ==> r == Err(Driver(fault.error))
    ensures Outcome(fault, 0).None? && Outcome(fault, 1).None? && id in old(t.rows) ==>
      r == Ok(Some(Row(id, Stamped(old(t.rows)[id], dados, now))))
    ensures Outcome(fault, 0).None? && Outcome(fault, 1).None? && id !in old(t.rows) ==> r == Ok(None)
  {
    var result := t.UpdateWhereId(id, row => Stamped(row, dados, now), Outcome(fault, 0));
    if result.Err? {
      return Err(Driver(result.error));
    }
    r := FindById(t, id, Shift(fault, 1));
  }

  /** `delete`: `true` exactly when a row was removed. */
  method Delete(t: Table<Filhote>, id: nat, fault: Fault) returns (r: Result<bool, Error>)
    requires t.Valid()
    modifies t
    ensures t.Valid() && t.autoIncrement == old(t.autoIncrement)
    ensures Outcome(fault, 0).Some? ==> r == Err(Driver(fault.error)) && t.rows == old(t.rows)
    ensures Outcome(fault, 0).None? ==> r == Ok(id in old(t.rows)) && t.rows == old(t.rows) - {id}
  {
    var result := t.DeleteWhereId(id, Outcome(fault, 0));
    if result.Err? {
      return Err(Driver(result.error));
    }
    r := Ok(result.value > 0);
  }
}
