/** `SQLServerConnection.update_heatmap`: the INSERT statement it builds for
    a frame whose geometry column is `Shape`, the rows it binds to that
    statement, and the order in which it deletes and inserts. The database
    is a log of the statements it is sent; opening connections, cursors and
    commits are I/O. */
module Connection {
  import opened Base
  import opened Text

  /** A data frame: its column names, and its rows as `df.values.tolist()`
      gives them (each row's cells in column order). */
  datatype Frame = Frame(columns: seq<string>, rows: seq<seq<Value>>)

  /** Every row has one cell per column. */
  predicate Rectangular(df: Frame)
  {
    forall r :: 0 <= r < |df.rows| ==> |df.rows[r]| == |df.columns|
  }

  /** What the database is sent. */
  datatype DbEvent =
    | Execute(query: string)                                   // `cursor.execute(query)`
    | ExecuteMany(query: string, params: seq<seq<Value>>)      // `cursor.executemany(query, params)`
    | ParallelExecuteMany(query: string, params: seq<seq<Value>>)  // the same, spread over a process pool

  const Shape := "Shape"

  /** `_delete_all`'s statement. */
  function DeleteAllQuery(table: string): string
  {
    "DELETE FROM " + table
  }

  // ----- list.remove("Shape") -----

  /** The position of the first `x` in `xs`, if any. */
  function IndexOf(xs: seq<string>, x: string): (i: Option<nat>)
    ensures i.None? <==> x !in xs
    ensures i.Some? ==> i.value < |xs| && xs[i.value] == x && x !in xs[..i.value]
  {
    if xs == [] then None
    else if xs[0] == x then Some(0)
    else
      var rest := IndexOf(xs[1..], x);
      assert xs[1..][..if rest.Some? then rest.value else 0] == xs[1..1 + if rest.Some? then rest.value else 0];
      if rest.None? then None else Some(rest.value + 1)
  }

  /** Python's `xs.remove(x)`: the first `x` is dropped, the rest keep their
      order; a list without `x` raises ValueError. */
  function RemoveFirst(xs: seq<string>, x: string): (r: Result<seq<string>>)
    ensures r.Err? <==> x !in xs
    ensures r.Err? ==> r.error == ValueError
    ensures r.Ok? ==> r.value == xs[..IndexOf(xs, x).value] + xs[IndexOf(xs, x).value + 1..]
  {
    match IndexOf(xs, x)
    case None => Err(ValueError)
    case Some(i) => Ok(xs[..i] + xs[i + 1..])
  }

  /** Only one occurrence goes: every other name keeps its count. */
  lemma RemoveFirstDropsOne(xs: seq<string>, x: string)
    requires x in xs
    ensures |RemoveFirst(xs, x).value| == |xs| - 1
    ensures multiset(RemoveFirst(xs, x).value) == multiset(xs) - multiset{x}
  {
    var i := IndexOf(xs, x).value;
    assert xs == xs[..i] + [x] + xs[i + 1..];
    assert multiset(xs) == multiset(xs[..i]) + multiset{x} + multiset(xs[i + 1..]);
  }

  // ----- the column order -----

  /** `xs[i]` moved to the front, the others keeping their order. */
  function MoveToFront<T>(xs: seq<T>, i: nat): (ys: seq<T>)
    requires i < |xs|
    ensures |ys| == |xs|
  {
    [xs[i]] + xs[..i] + xs[i + 1..]
  }

  /** Where the k-th element of `MoveToFront(xs, i)` comes from in `xs`. */
  function Source(i: nat, k: nat): nat
  {
    if k == 0 then i else if k <= i then k - 1 else k
  }

  /** Moving an element to the front is a permutation that takes position k
      from position Source(i, k). */
  lemma MoveToFrontSpec<T>(xs: seq<T>, i: nat)
    requires i < |xs|
    ensures forall k :: 0 <= k < |xs| ==> Source(i, k) < |xs| && MoveToFront(xs, i)[k] == xs[Source(i, k)]
    ensures multiset(MoveToFront(xs, i)) == multiset(xs)
  {
    assert xs == xs[..i] + [xs[i]] + xs[i + 1..];
  }

  /** `re_fields`: `Shape` followed by the other columns in frame order,
      without the first `Shape`. */
  function InsertColumns(columns: seq<string>): (reFields: seq<string>)
    requires Shape in columns
    ensures reFields == [Shape] + RemoveFirst(columns, Shape).value
    ensures reFields == MoveToFront(columns, IndexOf(columns, Shape).value)
  {
    [Shape] + RemoveFirst(columns, Shape).value
  }

  // ----- the statement -----

  /** The spaces between the column list and VALUES: one before the line
      continuation and the twelve that indent the next source line. */
  const Gap := "             "

  const GeometryPlaceholder := "geometry::STGeomFromText(" + "?" + ", 4326)"

  /** `k` copies of `s`. */
  function Repeat(s: string, k: nat): (r: seq<string>)
    ensures |r| == k && forall j :: 0 <= j < k ==> r[j] == s
  {
    if k == 0 then [] else [s] + Repeat(s, k - 1)
  }

  /** The VALUES items: the geometry, then one `?` per other column. */
  function Placeholders(k: nat): seq<string>
  {
    [GeometryPlaceholder] + Repeat("?", k)
  }

  /** The statement up to the VALUES items: the table, `Shape` and the other
      columns, and the opening of the VALUES list. */
  function StatementHead(table: string, fields: seq<string>): string
  {
    "INSERT INTO " + table + " (" + Join([Shape] + fields, ", ") + ")" + Gap + "VALUES("
  }

  /** The statement as `update_heatmap` writes it: the geometry placeholder,
      a comma, then the joined `?`s, even when there are none. */
  function InsertStatementAsWritten(table: string, fields: seq<string>): string
  {
    StatementHead(table, fields) + GeometryPlaceholder + ", " + Join(Repeat("?", |fields|), ", ") + ");"
  }

  /** The statement with the VALUES items joined as one list, so that a frame
      holding only `Shape` gets no dangling comma. */
  function InsertStatement(table: string, fields: seq<string>): string
  {
    StatementHead(table, fields) + Join(Placeholders(|fields|), ", ") + ");"
  }

  /** As soon as there is a column besides `Shape`, the written statement is
      the intended one. */
  lemma InsertStatementAgrees(table: string, fields: seq<string>)
    requires fields != []
    ensures InsertStatementAsWritten(table, fields) == InsertStatement(table, fields)
  {
    var p := Placeholders(|fields|);
    assert p[1..] == Repeat("?", |fields|);
    assert Join(p, ", ") == GeometryPlaceholder + ", " + Join(Repeat("?", |fields|), ", ");
  }

  /** A frame whose only column is `Shape` gets `VALUES(<geometry>, );`: an
      empty item after the last comma, which SQL Server rejects; the
      intended statement closes the list right after the geometry. */
  lemma InsertStatementAsWrittenShapeOnly(table: string)
    ensures StatementHead(table, []) == "INSERT INTO " + table + " (Shape)" + Gap + "VALUES("
    ensures InsertStatementAsWritten(table, []) == StatementHead(table, []) + GeometryPlaceholder + ", );"
    ensures InsertStatement(table, []) == StatementHead(table, []) + GeometryPlaceholder + ");"
    ensures InsertStatementAsWritten(table, []) != InsertStatement(table, [])
  {
    assert [Shape] + [] == [Shape];
    assert Join(Placeholders(0), ", ") == GeometryPlaceholder;
    var head := StatementHead(table, []) + GeometryPlaceholder;
    assert |head + ", );"| == |head + ");"| + 2;
  }

  lemma {:induction false} CountRepeatJoin(k: nat)
    ensures Count('?', Join(Repeat("?", k), ", ")) == k
    decreases k
  {
    if k >= 2 {
      var r := Repeat("?", k);
      assert r[1..] == Repeat("?", k - 1);
      CountRepeatJoin(k - 1);
      CountAppend('?', "?" + ", ", Join(r[1..], ", "));
      CountAppend('?', "?", ", ");
    } else if k == 1 {
      assert Join(Repeat("?", 1), ", ") == "?";
    }
  }

  /** The geometry placeholder holds the one `?` of the geometry's text. */
  lemma GeometryPlaceholderMarks()
    ensures Count('?', GeometryPlaceholder) == 1
  {
    var before, after := "geometry::STGeomFromText(", ", 4326)";
    assert '?' !in before && '?' !in after;
    CountAbsent('?', before);
    CountAbsent('?', after);
    CountAppend('?', before, "?");
    CountAppend('?', before + "?", after);
  }

  /** One `?` per inserted column: the geometry's, then one per other
      column, and no item of the VALUES list is empty. */
  lemma PlaceholderCount(fields: seq<string>)
    ensures |Placeholders(|fields|)| == |[Shape] + fields|
    ensures Count('?', Join(Placeholders(|fields|), ", ")) == |[Shape] + fields|
    ensures forall p :: p in Placeholders(|fields|) ==> p != "" && Count('?', p) == 1
  {
    var p := Placeholders(|fields|);
    var rest := Join(Repeat("?", |fields|), ", ");
    GeometryPlaceholderMarks();
    CountRepeatJoin(|fields|);
    if fields != [] {
      assert p[1..] == Repeat("?", |fields|);
      assert Join(p, ", ") == GeometryPlaceholder + (", " + rest);
      CountAppend('?', GeometryPlaceholder, ", " + rest);
      CountAppend('?', ", ", rest);
    }
  }

  // ----- the bound rows -----

  /** The parameters `_multi_process` binds as written: `df.values.tolist()`,
      each row's cells in frame order. */
  function BoundRowsAsWritten(df: Frame): seq<seq<Value>>
  {
    df.rows
  }

  /** Each row's cells in the statement's column order: the `Shape` cell
      first. */
  function BoundRows(df: Frame): (params: seq<seq<Value>>)
    requires Rectangular(df) && Shape in df.columns
    ensures |params| == |df.rows|
  {
    seq(|df.rows|, r requires 0 <= r < |df.rows| => MoveToFront(df.rows[r], IndexOf(df.columns, Shape).value))
  }

  /** Columns and values line up: the k-th column of the statement and the
      k-th bound cell of every row come from the same frame column, and the
      geometry placeholder receives the `Shape` cell. */
  lemma BoundRowsAligned(df: Frame)
    requires Rectangular(df) && Shape in df.columns
    ensures var cols, s := InsertColumns(df.columns), IndexOf(df.columns, Shape).value;
      && |cols| == |df.columns|
      && (forall r, k :: 0 <= r < |df.rows| && 0 <= k < |cols| ==>
            && Source(s, k) < |df.columns|
            && cols[k] == df.columns[Source(s, k)]
            && BoundRows(df)[r][k] == df.rows[r][Source(s, k)])
      && (forall r :: 0 <= r < |df.rows| ==> BoundRows(df)[r][0] == df.rows[r][s])
  {
    var s := IndexOf(df.columns, Shape).value;
    MoveToFrontSpec(df.columns, s);
    forall r | 0 <= r < |df.rows|
      ensures forall k :: 0 <= k < |df.columns| ==> BoundRows(df)[r][k] == df.rows[r][Source(s, k)]
    {
      MoveToFrontSpec(df.rows[r], s);
    }
  }

  /** A frame with `Shape` as its second column: the geometry placeholder is
      bound to the first column's cell. */
  lemma BoundRowsAsWrittenMisbinds()
    ensures var df := Frame(["id", Shape], [[Int(7), Text("POINT (25 54)")]]);
      && InsertColumns(df.columns)[0] == Shape
      && BoundRowsAsWritten(df)[0][0] == Int(7)
      && BoundRows(df)[0][0] == Text("POINT (25 54)")
  {
    var df := Frame(["id", Shape], [[Int(7), Text("POINT (25 54)")]]);
    assert df.columns[0] != Shape;
    assert IndexOf(df.columns, Shape) == Some(1);
  }

  /** When `Shape` is the frame's first column and some other column
      follows it, the statement `update_heatmap` writes and the rows it binds
      are the intended ones: the VALUES list has no dangling comma and every
      row's `Shape` cell meets the geometry placeholder. */
  lemma HeatmapAsIntendedWhenShapeFirst(table: string, df: Frame)
    requires Rectangular(df) && IndexOf(df.columns, Shape) == Some(0) && 2 <= |df.columns|
    ensures RemoveFirst(df.columns, Shape).Ok?
    ensures InsertStatementAsWritten(table, RemoveFirst(df.columns, Shape).value)
            == InsertStatement(table, RemoveFirst(df.columns, Shape).value)
    ensures BoundRowsAsWritten(df) == BoundRows(df)
  {
    RemoveFirstDropsOne(df.columns, Shape);
    InsertStatementAgrees(table, RemoveFirst(df.columns, Shape).value);
    forall r | 0 <= r < |df.rows|
      ensures BoundRows(df)[r] == df.rows[r]
    {
      assert MoveToFront(df.rows[r], 0) == df.rows[r];
    }
  }

  // ----- the connection -----

  /** `SQLServerConnection`: the attributes `update_heatmap` sets, and what
      the database has been sent. */
  class SqlServerConnection {
    var table: Option<string>
    var frame: Option<Frame>
    var insertQuery: Option<string>
    var executed: seq<DbEvent>

    /** Credentials come from the environment; no attribute of the heatmap
        is set yet. */
    constructor ()
      ensures table == None && frame == None && insertQuery == None && executed == []
    {
      table := None;
      frame := None;
      insertQuery := None;
      executed := [];
    }

    /** `_delete_all()`: `DELETE FROM <table>` is executed; without a table
        attribute the call raises AttributeError and sends nothing. */
    method DeleteAll() returns (outcome: Outcome)
      modifies this
      ensures table == old(table) && frame == old(frame) && insertQuery == old(insertQuery)
      ensures old(table).None? ==> outcome == Fail(AttributeError) && executed == old(executed)
      ensures old(table).Some? ==> outcome == Pass && executed == old(executed) + [Execute(DeleteAllQuery(old(table).value))]
    {
      if table.None? {
        return Fail(AttributeError);
      }
      executed := executed + [Execute("DELETE FROM " + table.value)];
      outcome := Pass;
    }

    /** `_multi_process(rows)`: the insert statement is executed once for all
        of `rows`; without an insert statement the call raises
        AttributeError and sends nothing. */
    method MultiProcess(rows: seq<seq<Value>>) returns (outcome: Outcome)
      modifies this
      ensures table == old(table) && frame == old(frame) && insertQuery == old(insertQuery)
      ensures old(insertQuery).None? ==> outcome == Fail(AttributeError) && executed == old(executed)
      ensures old(insertQuery).Some? ==>
        outcome == Pass && executed == old(executed) + [ExecuteMany(old(insertQuery).value, rows)]
    {
      if insertQuery.None? {
        return Fail(AttributeError);
      }
      executed := executed + [ExecuteMany(insertQuery.value, rows)];
      outcome := Pass;
    }

    /** `update_heatmap(table, df, delete)`. The table and frame attributes
        are set first, so they are set even when the frame has no `Shape`
        column and `remove` raises ValueError; nothing is sent then.
        Otherwise the insert statement is stored, `DELETE FROM <table>` is
        sent if and only if `delete` holds and before any insert, and the
        rows are inserted by exactly one `_multi_process` call on the whole
        frame when there are at most 200 of them, by the process pool
        otherwise. The statement and the bound rows are the ones the code
        writes: `InsertStatementAsWritten` and each row in frame order
        (`HeatmapAsIntendedWhenShapeFirst` says when they are the intended
        ones). */
    method UpdateHeatmap(table: string, df: Frame, delete: bool) returns (outcome: Outcome)
      requires Rectangular(df)
      modifies this
      ensures this.table == Some(table) && frame == Some(df)
      ensures Shape !in df.columns ==>
        outcome == Fail(ValueError) && insertQuery == old(insertQuery) && executed == old(executed)
      ensures Shape in df.columns ==>
        var statement := InsertStatementAsWritten(table, RemoveFirst(df.columns, Shape).value);
        && outcome == Pass
        && insertQuery == Some(statement)
        && executed == old(executed)
                       + (if delete then [Execute(DeleteAllQuery(table))] else [])
                       + [if |df.rows| > 200 then ParallelExecuteMany(statement, BoundRowsAsWritten(df))
                          else ExecuteMany(statement, BoundRowsAsWritten(df))]
    {
      this.table := Some(table);
      frame := Some(df);
      var removed := RemoveFirst(df.columns, Shape);
      if removed.Err? {
        return Fail(removed.error);
      }
      var fields := removed.value;
      var reFields := [Shape] + fields;
      var symbols := InsertSymbols(fields);
      insertQuery := Some("INSERT INTO " + table + " (" + Join(reFields, ", ") + ")" + Gap
                          + "VALUES(" + GeometryPlaceholder + ", " + Join(symbols, ", ") + ");");
      outcome := Pass;
      if delete {
        outcome := DeleteAll();
      }
      if |df.rows| > 200 {
        executed := executed + [ParallelExecuteMany(insertQuery.value, df.rows)];
      } else {
        outcome := MultiProcess(df.rows);
      }
    }
  }

  /** `insert_simbols`: one `?` appended per remaining column. */
  method InsertSymbols(fields: seq<string>) returns (symbols: seq<string>)
    ensures symbols == Repeat("?", |fields|)
  {
    symbols := [];
    for i := 0 to |fields|
      invariant symbols == Repeat("?", i)
    {
      RepeatAppend("?", i);
      symbols := symbols + ["?"];
    }
  }

  lemma RepeatAppend(s: string, k: nat)
    ensures Repeat(s, k) + [s] == Repeat(s, k + 1)
  {
  }
}
