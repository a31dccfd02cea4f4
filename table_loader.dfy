/** The relational store and the truncate-then-append load of one table. */
module TableLoader {
  import opened Rows

  /** Table contents by table name; a table that does not exist has no entry. */
  type Tables = map<string, seq<DbRow>>

  /** How a load ended: both steps done, the TRUNCATE raised (the table does not exist),
      or the append was rejected after the TRUNCATE had already committed. */
  datatype LoadStatus = Loaded | TruncateFailed | AppendFailed

  /** The rows of table `t`; an absent table reads as empty (appending creates it). */
  function RowsOf(tables: Tables, t: string): seq<DbRow>
  {
    if t in tables then tables[t] else []
  }

  /** What `Store.Load` does to the tables, step by step: the TRUNCATE commits on its
      own, then the append runs; `rejected` is the database refusing the append. */
  function LoadEffect(tables: Tables, t: string, rows: seq<DbRow>, rejected: bool): (out: (LoadStatus, Tables))
    ensures out.0 == TruncateFailed <==> t !in tables
    ensures out.0 == TruncateFailed ==> out.1 == tables
    ensures out.0 == AppendFailed ==> out.1 == tables[t := []]
    ensures out.0 == Loaded <==> t in tables && !rejected
    ensures out.0 == Loaded ==> out.1 == tables[t := rows]
    ensures out.1.Keys == tables.Keys
    ensures forall u :: u in tables && u != t ==> out.1[u] == tables[u]
  {
    if t !in tables then (TruncateFailed, tables)
    else
      var truncated := tables[t := []];
      if rejected then (AppendFailed, truncated)
      else
        assert RowsOf(truncated, t) + rows == rows;
        (Loaded, truncated[t := RowsOf(truncated, t) + rows])
  }

  /** After a successful load the table holds the loaded rows whatever it held before:
      two stores that differ only in that table's old contents end up equal. */
  lemma LoadForgetsOldContents(m1: Tables, m2: Tables, t: string, rows: seq<DbRow>)
    requires t in m1 && m1.Keys == m2.Keys
    requires forall u :: u in m1 && u != t ==> m1[u] == m2[u]
    ensures LoadEffect(m1, t, rows, false) == LoadEffect(m2, t, rows, false)
  {
    assert LoadEffect(m1, t, rows, false).1 == LoadEffect(m2, t, rows, false).1;
  }

  /** Loading the same rows twice, with the database answering the same way, ends as
      loading once does: on success, on a missing table, and on a refused append. */
  lemma LoadIdempotent(m: Tables, t: string, rows: seq<DbRow>, rejected: bool)
    ensures LoadEffect(LoadEffect(m, t, rows, rejected).1, t, rows, rejected) == LoadEffect(m, t, rows, rejected)
  {
    var once := LoadEffect(m, t, rows, rejected).1;
    if t in m {
      if rejected {
        assert once[t := []] == once;
      } else {
        assert once[t := rows] == once;
      }
    }
  }

  /** The database the pipeline writes to. */
  class Store {
    var tables: Tables

    constructor (initial: Tables)
      ensures tables == initial
    {
      tables := initial;
    }

    /** TRUNCATE TABLE t, committed in a transaction of its own. */
    method Truncate(t: string) returns (ok: bool)
      modifies this
      ensures ok <==> t in old(tables)
      ensures tables == if ok then old(tables)[t := []] else old(tables)
    {
      ok := t in tables;
      if ok {
        tables := tables[t := []];
      }
    }

    /** Appends `rows` after the rows table `t` already holds, creating the table when it
        is absent; `rejected` is the database refusing the insert. */
    method Append(t: string, rows: seq<DbRow>, rejected: bool) returns (ok: bool)
      modifies this
      ensures ok == !rejected
      ensures tables == if ok then old(tables)[t := RowsOf(old(tables), t) + rows] else old(tables)
    {
      ok := !rejected;
      if ok {
        tables := tables[t := RowsOf(tables, t) + rows];
      }
    }

    /** Replaces the contents of table `t` by `rows`: a truncate, then a separate append.
        The two are not one unit: a rejected append leaves the table empty. */
    method Load(t: string, rows: seq<DbRow>, rejected: bool) returns (status: LoadStatus)
      modifies this
      ensures (status, tables) == LoadEffect(old(tables), t, rows, rejected)
    {
      var truncated := Truncate(t);
      if !truncated {
        return TruncateFailed;
      }
      var appended := Append(t, rows, rejected);
      status := if appended then Loaded else AppendFailed;
    }
  }
}
