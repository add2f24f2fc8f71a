/** The database side: what `get_schema` reports and how `execute_sql`
    turns the engine's behaviour into a `(success, results, error)` triple.
    The engine itself (SQLite) is not modelled; its behaviour on one
    statement is an `EngineOutcome`. */
module Database {
  import opened Outcomes

  /** One cell of a result row. Floating-point values are kept as their
      printed text. */
  datatype SqlValue = Null | Integer(i: int) | Real(printed: string) | Text(s: string) | Blob(bytes: seq<bv8>)

  type Row = seq<SqlValue>

  /** One entry of `cursor.description`; only its first field, the column
      name, is set by SQLite. */
  datatype ColumnDescription = ColumnDescription(name: string)

  /** What the engine did with one statement: it ran and produced a
      description (absent for statements that return no rows) and rows, or
      it raised with a diagnostic. */
  datatype EngineOutcome =
    | Executed(description: Option<seq<ColumnDescription>>, rows: seq<Row>)
    | Raised(message: string)

  /** The `(columns, rows)` pair of a successful query. */
  datatype QueryResults = QueryResults(columns: seq<string>, rows: seq<Row>)

  /** The triple `execute_sql` returns. */
  datatype ExecTriple = ExecTriple(success: bool, results: Option<QueryResults>, error: Option<string>)

  /** One entry per table of `get_schema`: its name, its column names and
      their declared types, in declaration order. */
  datatype TableInfo = TableInfo(table: string, columns: seq<string>, types: seq<string>)

  type Schema = seq<TableInfo>

  /** A triple is either a success with results and no error, or a failure
      with an error and no results. */
  predicate WellShaped(t: ExecTriple) {
    if t.success then t.results.Some? && t.error.None? else t.results.None? && t.error.Some?
  }

  /** The names of the described columns, in order. */
  function ColumnNames(d: seq<ColumnDescription>): (names: seq<string>)
    ensures |names| == |d|
    ensures forall i :: 0 <= i < |d| ==> names[i] == d[i].name
  {
    seq(|d|, i requires 0 <= i < |d| => d[i].name)
  }

  /** `execute_sql`: the triple is well shaped; it reports success exactly when
      the engine ran the statement, with every fetched row and the described
      column names in order (none when there is no description); otherwise it
      carries the engine's message unchanged. */
  function ExecuteSql(outcome: EngineOutcome): (t: ExecTriple)
    ensures WellShaped(t)
    ensures t.success <==> outcome.Executed?
    ensures t.success ==> t.results.value.rows == outcome.rows
    ensures t.success && outcome.description.None? ==> t.results.value.columns == []
    ensures t.success && outcome.description.Some? ==>
      |t.results.value.columns| == |outcome.description.value| &&
      forall i :: 0 <= i < |outcome.description.value| ==>
        t.results.value.columns[i] == outcome.description.value[i].name
    ensures !t.success ==> t.error.value == outcome.message
  {
    match outcome
    case Executed(description, rows) =>
      var columns := if description.Some? && description.value != [] then ColumnNames(description.value) else [];
      ExecTriple(true, Some(QueryResults(columns, rows)), None)
    case Raised(message) =>
      ExecTriple(false, None, Some(message))
  }
}
