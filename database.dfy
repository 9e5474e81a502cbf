/**
 * The relational store the models talk to, reduced to what the program
 * relies on: one table is a map from primary key to row plus the
 * `AUTO_INCREMENT` counter, and each statement either runs or is rejected by
 * the driver. Which statement of a call is rejected is a parameter (`Fault`),
 * since connection loss and constraint violations come from outside the
 * program.
 */
module Database {
  import opened Common
  import Ordering

  /** A rejection by the MySQL driver (lost connection, constraint violation, ...). */
  datatype DbError = DbError(code: string)

  /** What a call may throw: an `Error` built by the program, or the driver's own. */
  datatype Error = Thrown(message: string) | Driver(cause: DbError)

  /** `FailAt(k, e)`: the `k`-th statement of the call (from 0) is rejected with `e`. */
  datatype Fault = NoFault | FailAt(statement: nat, error: DbError)

  /** How statement `k` of a call ends: rejected with the error, or not rejected. */
  function Outcome(f: Fault, k: nat): (r: Option<DbError>)
    ensures r.Some? <==> f.FailAt? && f.statement == k
  {
    if f.FailAt? && f.statement == k then Some(f.error) else None
  }

  /** The fault as a call made after the first `k` statements sees it. */
  function Shift(f: Fault, k: nat): (g: Fault)
    ensures forall j: nat :: Outcome(g, j) == Outcome(f, j + k)
  {
    if f.FailAt? && f.statement >= k then FailAt(f.statement - k, f.error) else NoFault
  }

  /** What the driver reports for an `INSERT`, `UPDATE` or `DELETE`. */
  datatype ResultHeader = ResultHeader(insertId: nat, affectedRows: nat)

  /** A row as `SELECT *` returns it: the primary key and the other columns. */
  datatype Row<R> = Row(id: nat, data: R)

  /** The rows with a key below `n`, by ascending key: the order of a primary-key scan. */
  function Scan<R>(rows: map<nat, R>, n: nat): (s: seq<Row<R>>)
    ensures forall k | 0 <= k < |s| :: s[k].id < n && s[k].id in rows && rows[s[k].id] == s[k].data
    ensures forall k, l | 0 <= k < l < |s| :: s[k].id < s[l].id
  {
    if n == 0 then []
    else if n - 1 in rows then Scan(rows, n - 1) + [Row(n - 1, rows[n - 1])]
    else Scan(rows, n - 1)
  }

  /** Every row with a key below `n` is in the scan. */
  lemma {:induction false} ScanComplete<R>(rows: map<nat, R>, n: nat)
    ensures forall id | id in rows && id < n :: Row(id, rows[id]) in Scan(rows, n)
  {
    if n > 0 {
      ScanComplete(rows, n - 1);
    }
  }

  /** A scan holds each row exactly once. */
  lemma ScanIsTable<R>(rows: map<nat, R>, n: nat)
    requires forall id | id in rows :: id < n
    ensures forall x :: x in Scan(rows, n) <==> x.id in rows && rows[x.id] == x.data
    ensures |Scan(rows, n)| == |rows|
  {
    ScanComplete(rows, n);
    var s := Scan(rows, n);
    var ids := set k | 0 <= k < |s| :: s[k].id;
    assert ids == rows.Keys by {
      forall id | id in rows
        ensures id in ids
      {
        var k :| 0 <= k < |s| && s[k] == Row(id, rows[id]);
      }
    }
    IdsOfStrictlyIncreasing(s);
  }

  /** Strictly increasing keys are distinct, so there are as many as there are rows. */
  lemma {:induction false} IdsOfStrictlyIncreasing<R>(s: seq<Row<R>>)
    requires forall k, l | 0 <= k < l < |s| :: s[k].id < s[l].id
    ensures |set k | 0 <= k < |s| :: s[k].id| == |s|
  {
    if s != [] {
      var init := s[..|s| - 1];
      IdsOfStrictlyIncreasing(init);
      var a := set k | 0 <= k < |init| :: init[k].id;
      var b := set k | 0 <= k < |s| :: s[k].id;
      assert b == a + {s[|s| - 1].id};
      assert s[|s| - 1].id !in a;
    }
  }

  /**
   * One table. The store keeps every key below the counter, so a fresh key
   * never collides with a row.
   */
  class Table<R(!new)> {
    var rows: map<nat, R>
    var autoIncrement: nat

    ghost predicate Valid()
      reads this
    {
      forall id | id in rows :: id < autoIncrement
    }

    constructor ()
      ensures Valid() && rows == map[] && autoIncrement == 1
    {
      rows := map[];
      autoIncrement := 1;
    }

    /** `INSERT`: the row gets the next key, reported as `insertId`. */
    method Insert(data: R, fault: Option<DbError>) returns (r: Result<nat, DbError>)
      requires Valid()
      modifies this
      ensures Valid()
      ensures fault.Some? ==> r == Err(fault.value) && rows == old(rows) && autoIncrement == old(autoIncrement)
      ensures fault.None? ==> r == Ok(old(autoIncrement)) && old(autoIncrement) !in old(rows)
      ensures fault.None? ==> rows == old(rows)[old(autoIncrement) := data]
      ensures fault.None? ==> autoIncrement == old(autoIncrement) + 1
    {
      if fault.Some? {
        return Err(fault.value);
      }
      r := Ok(autoIncrement);
      rows := rows[autoIncrement := data];
      autoIncrement := autoIncrement + 1;
    }

    /**
     * `UPDATE ... WHERE id = ?`: the row with the key, if any, becomes
     * `change` of itself; `affectedRows` counts the rows matched.
     */
    method UpdateWhereId(id: nat, change: R -> R, fault: Option<DbError>) returns (r: Result<nat, DbError>)
      requires Valid()
      modifies this
      ensures Valid() && autoIncrement == old(autoIncrement)
      ensures fault.Some? ==> r == Err(fault.value) && rows == old(rows)
      ensures fault.None? && id in old(rows) ==> r == Ok(1) && rows == old(rows)[id := change(old(rows)[id])]
      ensures fault.None? && id !in old(rows) ==> r == Ok(0) && rows == old(rows)
    {
      if fault.Some? {
        return Err(fault.value);
      }
      if id in rows {
        rows := rows[id := change(rows[id])];
        r := Ok(1);
      } else {
        r := Ok(0);
      }
    }

    /** `DELETE ... WHERE id = ?`: `affectedRows` is 1 when the row existed. */
    method DeleteWhereId(id: nat, fault: Option<DbError>) returns (r: Result<nat, DbError>)
      requires Valid()
      modifies this
      ensures Valid() && autoIncrement == old(autoIncrement)
      ensures fault.Some? ==> r == Err(fault.value) && rows == old(rows)
      ensures fault.None? ==> r == Ok(if id in old(rows) then 1 else 0) && rows == old(rows) - {id}
    {
      if fault.Some? {
        return Err(fault.value);
      }
      r := Ok(if id in rows then 1 else 0);
      rows := rows - {id};
    }

    /** `SELECT * ... WHERE id = ?`: the matching row, or no row. */
    method SelectWhereId(id: nat, fault: Option<DbError>) returns (r: Result<seq<Row<R>>, DbError>)
      ensures fault.Some? ==> r == Err(fault.value)
      ensures fault.None? && id in rows ==> r == Ok([Row(id, rows[id])])
      ensures fault.None? && id !in rows ==> r == Ok([])
    {
      if fault.Some? {
        return Err(fault.value);
      }
      if id in rows {
        r := Ok([Row(id, rows[id])]);
      } else {
        r := Ok([]);
      }
    }

    /** `SELECT *` without `ORDER BY`: every row once, in primary-key order. */
    method SelectAll(fault: Option<DbError>) returns (r: Result<seq<Row<R>>, DbError>)
      requires Valid()
      ensures fault.Some? ==> r == Err(fault.value)
      ensures fault.None? ==> r == Ok(Scan(rows, autoIncrement))
      ensures fault.None? ==> |r.value| == |rows|
      ensures fault.None? ==> forall x :: x in r.value <==> x.id in rows && rows[x.id] == x.data
    {
      if fault.Some? {
        return Err(fault.value);
      }
      ScanIsTable(rows, autoIncrement);
      r := Ok(Scan(rows, autoIncrement));
    }

    /**
     * `SELECT * ... ORDER BY`: every row once, sorted by `le` whenever `le`
     * is a total preorder (ties in primary-key order).
     */
    method SelectOrderedBy(le: (Row<R>, Row<R>) -> bool, fault: Option<DbError>) returns (r: Result<seq<Row<R>>, DbError>)
      requires Valid()
      ensures fault.Some? ==> r == Err(fault.value)
      ensures fault.None? ==> r == Ok(Ordering.SortBy(Scan(rows, autoIncrement), le))
      ensures fault.None? ==> |r.value| == |rows|
      ensures fault.None? ==> forall x :: x in r.value <==> x.id in rows && rows[x.id] == x.data
      ensures fault.None? && Ordering.TotalPreorder(le) ==> Ordering.Sorted(r.value, le)
    {
      if fault.Some? {
        return Err(fault.value);
      }
      var all := Scan(rows, autoIncrement);
      ScanIsTable(rows, autoIncrement);
      var sorted := Ordering.SortBy(all, le);
      assert forall x :: x in sorted <==> x in multiset(all);
      if Ordering.TotalPreorder(le) {
        Ordering.SortBySorted(all, le);
      }
      r := Ok(sorted);
    }
  }
}
