/** The training history tool: fetches an employee's training rows and
    rewrites, row by row and in place, each row's date as `YYYY-MM-DD`. */
module EmployeeTrainingHistoryTool {
  import opened Results
  import CalendarDates
  import opened BigQueryOperations

  /** The history lookup: the seven training columns of the
      `employee_trainings` table, filtered by the `email` parameter. */
  function HistoryQuery(w: Warehouse): (q: Query)
    ensures q.table == TableRef(w, "employee_trainings") && "date" in q.columns
    ensures q.condition.Some? && q.condition.value.column == "email"
    ensures forall e :: q.condition.value.parameter == EmailParameters(e)[0].name
  {
    Select(["name", "email", "description", "skills", "date", "cost_usd", "url"],
           TableRef(w, "employee_trainings"), Some(ColumnEquals("email", "email")))
  }

  /** `row["date"].strftime(...)` can run: the row has a date column and
      its value is a date. */
  predicate HasDate(row: Row) {
    "date" in row && row["date"].DateValue?
  }

  /** What the loop body raises on a row without a date: `KeyError` when the
      column is absent, `AttributeError` when its value (a SQL NULL, say)
      has no `strftime`. */
  function DateError(row: Row): (e: Exception)
    ensures e == KeyError("date") <==> "date" !in row
    ensures e == AttributeError("strftime") <==> "date" in row
  {
    if "date" in row then AttributeError("strftime") else KeyError("date")
  }

  /** The row after `row["date"] = row["date"].strftime("%Y-%m-%d")`. */
  function WithIsoDate(row: Row): (r: Row)
    requires HasDate(row)
    ensures "date" in r && r["date"].Str? && r == row["date" := r["date"]]
  {
    row["date" := Str(CalendarDates.FormatIsoDate(row["date"].date))]
  }

  /** The rewritten row has the same columns, the date now its `YYYY-MM-DD`
      string naming the same date, every other column (name, email,
      description, skills, cost_usd, url, and any other) untouched. */
  lemma WithIsoDateKeepsRow(row: Row)
    requires HasDate(row)
    ensures var r := WithIsoDate(row);
            r.Keys == row.Keys &&
            r["date"].Str? && CalendarDates.IsIsoDateShape(r["date"].s) &&
            CalendarDates.ParseIsoDate(r["date"].s) == Some(row["date"].date) &&
            forall k :: k in row && k != "date" ==> r[k] == row[k]
  {
    CalendarDates.ParseFormatted(row["date"].date);
  }

  /** Index of the first row the loop cannot format, or the number of rows
      when it can format them all. */
  function FirstWithoutDate(rows: seq<Row>): (k: nat)
    ensures k <= |rows|
    ensures forall i :: 0 <= i < k ==> HasDate(rows[i])
    ensures k < |rows| ==> !HasDate(rows[k])
  {
    if rows == [] || !HasDate(rows[0]) then 0 else 1 + FirstWithoutDate(rows[1..])
  }

  /** The loop `for row in results: row["date"] = ...` over the result rows,
      in place. Rows are rewritten in order; the first row without a date
      stops the loop with its exception, so the rows before it are already
      rewritten and it and the rows after it are as they were. */
  method FormatDates(rows: array<Row>) returns (o: Outcome)
    modifies rows
    ensures var k := FirstWithoutDate(old(rows[..]));
            (o.Pass? <==> k == rows.Length) &&
            (o.Fail? ==> k < rows.Length && o.error == DateError(old(rows[k]))) &&
            (forall i :: 0 <= i < k ==> rows[i] == WithIsoDate(old(rows[i]))) &&
            (forall i :: k <= i < rows.Length ==> rows[i] == old(rows[i]))
  {
    ghost var original := rows[..];
    var i := 0;
    while i < rows.Length
      invariant 0 <= i <= rows.Length
      invariant forall j :: 0 <= j < i ==> HasDate(original[j]) && rows[j] == WithIsoDate(original[j])
      invariant forall j :: i <= j < rows.Length ==> rows[j] == original[j]
    {
      var row := rows[i];
      if "date" !in row {
        FirstWithoutDateIs(original, i);
        return Fail(KeyError("date"));
      }
      if !row["date"].DateValue? {
        FirstWithoutDateIs(original, i);
        return Fail(AttributeError("strftime"));
      }
      rows[i] := WithIsoDate(row);
      i := i + 1;
    }
    FirstWithoutDateIs(original, i);
    return Pass;
  }

  /** The first row without a date is the one after a run of rows with one. */
  lemma FirstWithoutDateIs(rows: seq<Row>, k: nat)
    requires k <= |rows|
    requires forall i :: 0 <= i < k ==> HasDate(rows[i])
    requires k < |rows| ==> !HasDate(rows[k])
    ensures FirstWithoutDate(rows) == k
  {
  }

  /** `get_employee_training_history`: the employee's training rows, same
      number and order as the query returned them, each with its date
      rewritten and nothing else changed; a query exception, or the
      exception of the first row without a date, is raised instead. */
  method GetEmployeeTrainingHistory(w: Warehouse, run: Executor, email: string)
    returns (r: Result<seq<Row>>)
    ensures var res := QueryMultipleRows(run, HistoryQuery(w), Some(EmailParameters(email)));
            (res.Failure? ==> r == Failure(res.error)) &&
            (res.Success? ==>
               var k := FirstWithoutDate(res.value);
               (r.Success? <==> k == |res.value|) &&
               (r.Failure? ==> k < |res.value| && r.error == DateError(res.value[k])) &&
               (r.Success? ==> |r.value| == |res.value| &&
                               forall i :: 0 <= i < |r.value| ==> r.value[i] == WithIsoDate(res.value[i])))
  {
    var res := QueryMultipleRows(run, HistoryQuery(w), Some(EmailParameters(email)));
    if res.Failure? {
      return Failure(res.error);
    }
    var rows := res.value;
    var results := new Row[|rows|](i requires 0 <= i < |rows| => rows[i]);
    assert results[..] == rows;
    var o := FormatDates(results);
    if o.Fail? {
      return Failure(o.error);
    }
    return Success(results[..]);
  }
}
