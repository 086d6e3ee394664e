/** The warehouse helpers: fully qualified table names, the two query
    wrappers and the one-row JSON load. The warehouse client is not
    modelled; it enters as a function argument that, given a query and its
    parameters, returns the result rows in order or the exception it raised
    (`Executor`), or, given a load job, the outcome of running it (`Loader`). */
module BigQueryOperations {
  import opened Results
  import Text
  import CalendarDates
  import Config

  /** A column value as the client returns it, or as a tool rewrites it. */
  datatype Value =
    | Null
    | Str(s: string)
    | Number(x: real)   // FLOAT64 values, only ever copied
    | DateValue(date: CalendarDates.CalendarDate)
    | StrList(items: seq<string>)

  /** A result row turned into a dictionary: column name to value. */
  type Row = map<string, Value>

  /** `bigquery.ScalarQueryParameter(name, type, value)`. */
  datatype QueryParameter = ScalarQueryParameter(name: string, typeName: string, value: string)

  /** `WHERE column = @parameter`. */
  datatype Condition = ColumnEquals(column: string, parameter: string)

  /** The SQL the tools send, kept as its structure rather than its text:
      `SELECT columns FROM `table` [WHERE condition]`. */
  datatype Query = Select(columns: seq<string>, table: string, condition: Option<Condition>)

  /** The parameter list with which both employee tools filter by email:
      one STRING parameter named `email`. */
  function EmailParameters(email: string): seq<QueryParameter> {
    [ScalarQueryParameter("email", "STRING", email)]
  }

  /** The client's query job: the rows in order, or the exception raised. */
  type Executor = (Query, seq<QueryParameter>) -> Result<seq<Row>>

  /** The module-level `_project_id` and `_dataset_id`. */
  datatype Warehouse = Warehouse(projectId: string, datasetId: string)

  /** The client is created for the configured project and the dataset is
      the configured one. */
  function Connect(c: Config.Settings): (w: Warehouse)
    ensures w.projectId == c.googleCloudProject && w.datasetId == c.bigqueryDatasetId
  {
    Warehouse(c.googleCloudProject, c.bigqueryDatasetId)
  }

  /** `get_table_ref`: `project.dataset.table`. */
  function TableRef(w: Warehouse, tableId: string): (r: string)
    ensures |r| == |w.projectId| + 1 + |w.datasetId| + 1 + |tableId|
    ensures r[..|w.projectId|] == w.projectId && r[|r| - |tableId|..] == tableId
    ensures var p, d := |w.projectId|, |w.datasetId|;
            r[p] == '.' && r[p + 1..p + 1 + d] == w.datasetId && r[p + 1 + d] == '.'
  {
    w.projectId + "." + w.datasetId + "." + tableId
  }

  /** Reads a table reference back as project, dataset and table: the text
      before the first dot, between the first and second dots, and after
      the second dot. */
  function ParseTableRef(r: string): Option<(string, string, string)> {
    var parts := Text.Split(r, '.');
    if |parts| < 3 then None else Some((parts[0], parts[1], Text.Join(parts[2..], ".")))
  }

  /** A table reference names its project, dataset and table unambiguously
      whenever the project and dataset ids contain no dot (the table id
      may). */
  lemma TableRefRoundTrip(w: Warehouse, tableId: string)
    requires '.' !in w.projectId && '.' !in w.datasetId
    ensures ParseTableRef(TableRef(w, tableId)) == Some((w.projectId, w.datasetId, tableId))
  {
    var p, d := w.projectId, w.datasetId;
    var tail := d + ['.'] + tableId;
    RefAsSplitPieces(w, tableId);
    Text.SplitAtFirstSeparator(p, '.', tail);
    Text.SplitAtFirstSeparator(d, '.', tableId);
    var parts := [p] + ([d] + Text.Split(tableId, '.'));
    assert Text.Split(TableRef(w, tableId), '.') == parts;
    assert parts[0] == p && parts[1] == d && parts[2..] == Text.Split(tableId, '.');
    Text.JoinSplit(tableId, '.');
  }

  /** The reference as the project, a dot, and the rest. */
  lemma RefAsSplitPieces(w: Warehouse, tableId: string)
    ensures TableRef(w, tableId) == w.projectId + ['.'] + (w.datasetId + ['.'] + tableId)
  {
  }

  /** The tables the tools read and write lie in the configured project and
      dataset: a reference of the connected warehouse reads back as those
      two ids and the table id. */
  lemma ConnectedTableRef(c: Config.Settings, tableId: string)
    requires '.' !in c.googleCloudProject && '.' !in c.bigqueryDatasetId
    ensures ParseTableRef(TableRef(Connect(c), tableId)) ==
            Some((c.googleCloudProject, c.bigqueryDatasetId, tableId))
  {
    TableRefRoundTrip(Connect(c), tableId);
  }

  /** Different tables of one warehouse have different references. */
  lemma TableRefInjective(w: Warehouse, t1: string, t2: string)
    requires TableRef(w, t1) == TableRef(w, t2)
    ensures t1 == t2
  {
    var r := TableRef(w, t1);
    assert t1 == r[|w.projectId| + |w.datasetId| + 2..];
  }

  /** `params or []`: absent parameters are an empty parameter list. */
  function ParamsOrEmpty(params: Option<seq<QueryParameter>>): (r: seq<QueryParameter>)
    ensures params.Some? ==> r == params.value
    ensures params.None? ==> r == []
  {
    if params.Some? then params.value else []
  }

  /** `query_single_row`: the first result row as a dictionary; `None` when
      there is no row and also when the first row has no columns, since an
      empty row is false in Python. A client exception is re-raised
      unchanged. */
  function QuerySingleRow(run: Executor, query: Query, params: Option<seq<QueryParameter>>)
    : (r: Result<Option<Row>>)
    ensures var res := run(query, ParamsOrEmpty(params));
            (r.Failure? <==> res.Failure?) &&
            (res.Failure? ==> r.error == res.error) &&
            (res.Success? ==> (r.value.Some? <==> |res.value| > 0 && res.value[0] != map[])) &&
            (res.Success? && r.value.Some? ==> r.value.value == res.value[0])
  {
    match run(query, ParamsOrEmpty(params))
    case Failure(e) => Failure(e)
    case Success(rows) =>
      var row := if |rows| > 0 then Some(rows[0]) else None;
      if row.Some? && row.value != map[] then Success(Some(row.value)) else Success(None)
  }

  /** `query_multiple_rows`: one dictionary per result row, same number,
      same order. A client exception is re-raised unchanged. */
  function QueryMultipleRows(run: Executor, query: Query, params: Option<seq<QueryParameter>>)
    : (r: Result<seq<Row>>)
    ensures var res := run(query, ParamsOrEmpty(params));
            (r.Failure? <==> res.Failure?) &&
            (res.Failure? ==> r.error == res.error) &&
            (res.Success? ==> |r.value| == |res.value| &&
                              forall i :: 0 <= i < |r.value| ==> r.value[i] == res.value[i])
  {
    match run(query, ParamsOrEmpty(params))
    case Failure(e) => Failure(e)
    case Success(rows) => Success(seq(|rows|, i requires 0 <= i < |rows| => rows[i]))
  }

  /** The single-row query is the first row of the multiple-row query, when
      that row exists and is not empty. */
  lemma SingleRowIsFirstOfMultiple(run: Executor, query: Query, params: Option<seq<QueryParameter>>)
    ensures var one := QuerySingleRow(run, query, params);
            var all := QueryMultipleRows(run, query, params);
            (one.Failure? <==> all.Failure?) &&
            (one.Failure? ==> one.error == all.error) &&
            (one.Success? ==> one.value == if |all.value| > 0 && all.value[0] != map[]
                                           then Some(all.value[0]) else None)
  {
  }

  /** An explicitly empty parameter list and an absent one run the same
      query. */
  lemma AbsentParamsAreEmpty(run: Executor, query: Query)
    ensures QuerySingleRow(run, query, None) == QuerySingleRow(run, query, Some([]))
    ensures QueryMultipleRows(run, query, None) == QueryMultipleRows(run, query, Some([]))
  {
  }

  /** Write disposition of a load job: appending is the only one the core
      configures. */
  datatype WriteDisposition = WriteAppend

  datatype SourceFormat = NewlineDelimitedJson

  /** A load job: destination table, format, disposition, and the records
      of the payload, one per newline-terminated line. */
  datatype LoadJob = LoadJob(destination: string, format: SourceFormat,
                             disposition: WriteDisposition, records: seq<Row>)

  /** The client's load job: the outcome of running it. */
  type Loader = LoadJob -> Outcome

  /** The tables of the warehouse, by fully qualified reference. */
  type Tables = map<string, seq<Row>>

  /** What a successful append job does to the tables: the records are
      added after the existing rows of its destination. */
  function ApplyLoad(tables: Tables, job: LoadJob): Tables {
    var existing := if job.destination in tables then tables[job.destination] else [];
    tables[job.destination := existing + job.records]
  }

  /** The job `insert_json_row` submits for `row` and `tableId`. */
  function InsertJob(w: Warehouse, tableId: string, row: Row): (job: LoadJob)
    ensures job.destination == TableRef(w, tableId) && job.format == NewlineDelimitedJson
    ensures job.disposition == WriteAppend && job.records == [row]
  {
    LoadJob(TableRef(w, tableId), NewlineDelimitedJson, WriteAppend, [row])
  }

  /** `insert_json_row`: submits the one-row append job to the table named
      by `get_table_ref(tableId)` and waits for it. The outcome is the job's,
      its exception re-raised unchanged; the tables afterwards are those the
      job leaves: the load applied when it succeeds, as they were when it
      fails. */
  function InsertJsonRow(w: Warehouse, load: Loader, tableId: string, row: Row, tables: Tables)
    : (r: (Outcome, Tables))
    ensures r.0 == load(InsertJob(w, tableId, row))
    ensures r.0.Pass? ==> r.1 == ApplyLoad(tables, InsertJob(w, tableId, row))
    ensures r.0.Fail? ==> r.1 == tables
  {
    var job := InsertJob(w, tableId, row);
    var o := load(job);
    (o, if o.Pass? then ApplyLoad(tables, job) else tables)
  }

  /** A successful insertion adds exactly `row` to the target table (as a
      multiset, since a table has no row order; in the model, after the rows
      it had), creating the table if it was absent, and leaves every
      other table as it was; a failed one changes nothing. */
  lemma InsertAppendsOneRow(w: Warehouse, load: Loader, tableId: string, row: Row, tables: Tables)
    ensures var (o, after) := InsertJsonRow(w, load, tableId, row, tables);
            var target := TableRef(w, tableId);
            var before := if target in tables then tables[target] else [];
            (o.Pass? ==>
               after.Keys == tables.Keys + {target} &&
               after[target] == before + [row] &&
               multiset(after[target]) == multiset(before) + multiset{row} &&
               forall t :: t in tables && t != target ==> after[t] == tables[t]) &&
            (o.Fail? ==> after == tables)
  {
  }
}
