# Professional development agent: verified model of the deterministic core

The professional development agent answers employee questions about
training, skills and budget. A hosted LLM does the routing and the answers.
The tools it calls are thin wrappers around a SQL warehouse (BigQuery).
The code that actually computes something locally is small. This project
models that code in Dafny and proves what it promises:

- **Configuration** (`config.dfy`, module `Config`). The settings are read
  from environment variables, with defaults. `is_valid` holds when four
  settings are non-empty. `validate` raises a `ValueError` that lists the
  missing variables in a fixed order. The environment is an explicit map.
- **Warehouse helpers** (`bigquery_operations.dfy`, module
  `BigQueryOperations`). This covers `get_table_ref`, the shaping of results
  in `query_single_row` and `query_multiple_rows`, and the one-row append
  job of `insert_json_row`. The warehouse client is a function argument.
  `Executor` runs a query: it returns the rows in order, or the exception
  the client raised. `Loader` runs a load job: it returns the job's outcome.
- **Employee profile tool** (`employee_profile_tool.dfy`). It looks a
  profile up by email. Then it turns the comma-separated skills string into
  a list of trimmed names. Only the `skills` column is replaced.
- **Training history tool** (`employee_training_history_tool.dfy`). It
  fetches an employee's training rows. Then a loop rewrites each row's date,
  in place, as `YYYY-MM-DD`. The loop is a method over an `array` of rows,
  proved against its specification with loop invariants.

Two support modules stand in for the Python library behaviour used:

- `text.dfy` (module `Text`): `str.strip()`, using Python's full `isspace`
  set; `str.split` with a one-character separator; and `sep.join`.
- `calendar_dates.dfy` (module `CalendarDates`): `datetime.date`, meaning
  Gregorian dates with years 1 to 9999, and `strftime("%Y-%m-%d")`. This is
  the complete calendar date in extended format of section 5.2.1.1 of
  ISO 8601:2004. It also has the parser that inverts it.

`results.dfy` (module `Results`) holds `Option`, `Result` and `Outcome`. It
also holds the exceptions that can escape the core: the client's own
exception, `KeyError`, `AttributeError` and `ValueError`.

SQL text is not modelled as text. A query is a `Select` value that records
its columns, its table reference and its `WHERE column = @parameter`
filter. The properties about which table and which parameters a tool uses
are stated on that value.

## Model

| member | source | states |
|---|---|---|
| `Config.GetEnv` | google_adk_professional_development_agent/config.py:49-69 | `os.getenv(name, default)`: a set variable gives its value, even "", an unset one the default |
| `Config.Load` | google_adk_professional_development_agent/config.py:49-72 | Each unset variable gives its setting its default whatever else is set: project "", location "US", dataset "amazincorp", data-store id "", search location "global", search bucket "", model "gemini-2.0-flash"; an unset staging bucket is absent |
| `Config.LoadDefaults` | google_adk_professional_development_agent/config.py:49-72 | With no variable set: project "", location "US", dataset "amazincorp", data-store id "", search location "global", search bucket "", model "gemini-2.0-flash", staging bucket absent |
| `Config.LoadTakesSetVariables` | google_adk_professional_development_agent/config.py:49-72 | A variable that is set, even to "", overrides its default; the staging bucket is present exactly when its variable is set |
| `Config.IsValid` | google_adk_professional_development_agent/config.py:74-86 | Valid exactly when every one of the four required settings (project, dataset, data-store id, model) is non-empty |
| `Config.MissingNames` | google_adk_professional_development_agent/config.py:97-106 | `missing` holds exactly the variables of the empty required settings, with no others, each once, in the order GOOGLE_CLOUD_PROJECT, BIGQUERY_DATASET_ID, VERTEX_AI_SEARCH_DATA_STORE_ID, MODEL_NAME; it is empty exactly when `is_valid` holds |
| `Config.Validate` | google_adk_professional_development_agent/config.py:88-110 | Validation passes exactly when `is_valid` holds; otherwise it raises `ValueError("Missing required environment variables: " + ", ".join(missing))` with `missing` non-empty |
| `Config.ValidationMessageNamesMissing` | google_adk_professional_development_agent/config.py:108-110 | The error message starts with the fixed prefix; splitting the rest at commas and trimming each piece gives back exactly `missing` |
| `Config.ValidityIgnoresOptionalSettings` | google_adk_professional_development_agent/config.py:72-86 | Changing the location, the search location, the search bucket or the staging bucket (even to absent) changes neither `is_valid` nor the result of validation |
| `Config.DefaultsFailValidation` | google_adk_professional_development_agent/config.py:49-110 | With no variable set, validation fails and reports exactly GOOGLE_CLOUD_PROJECT, VERTEX_AI_SEARCH_DATA_STORE_ID |
| `BigQueryOperations.Connect` | adk_hackathon_professional_development_agent/utils/bigquery_operations.py:45-47 | The client's project and the dataset are the configured project and dataset |
| `BigQueryOperations.TableRef` | adk_hackathon_professional_development_agent/utils/bigquery_operations.py:50-59 | For every project, dataset and table id: the project id, a dot, the dataset id, a dot and the table id, in that order (prefix, middle and suffix), and nothing else (the length is the sum of the parts) |
| `BigQueryOperations.TableRefRoundTrip` | adk_hackathon_professional_development_agent/utils/bigquery_operations.py:59 | When the project and dataset ids contain no dot, the reference read back at its first two dots gives the project, the dataset and the table id |
| `BigQueryOperations.ConnectedTableRef` | adk_hackathon_professional_development_agent/utils/bigquery_operations.py:45-59 | With dot-free configured ids, every table reference of the connected warehouse reads back as the configured project, the configured dataset and the table id |
| `BigQueryOperations.TableRefInjective` | adk_hackathon_professional_development_agent/utils/bigquery_operations.py:59 | Two table ids with the same reference in one warehouse are equal |
| `BigQueryOperations.ParamsOrEmpty` | adk_hackathon_professional_development_agent/utils/bigquery_operations.py:81 | `params or []`: given parameters are used as they are, absent ones become the empty list (also at line 110) |
| `BigQueryOperations.QuerySingleRow` | adk_hackathon_professional_development_agent/utils/bigquery_operations.py:62-88 | A client exception is re-raised unchanged. Otherwise the result is the first row, and it is `None` exactly when there is no row or the first row is empty |
| `BigQueryOperations.QueryMultipleRows` | adk_hackathon_professional_development_agent/utils/bigquery_operations.py:91-116 | A client exception is re-raised unchanged; otherwise one row per result row, same number, same order, same contents |
| `BigQueryOperations.SingleRowIsFirstOfMultiple` | adk_hackathon_professional_development_agent/utils/bigquery_operations.py:80-113 | Both query functions fail alike on the same query; the single row is the first of the multiple rows when that row exists and is non-empty, `None` otherwise |
| `BigQueryOperations.AbsentParamsAreEmpty` | adk_hackathon_professional_development_agent/utils/bigquery_operations.py:81 | Absent parameters give the same result as an empty parameter list, for both query functions |
| `BigQueryOperations.InsertJob` | adk_hackathon_professional_development_agent/utils/bigquery_operations.py:133-142 | The load job targets `get_table_ref(table_id)`, in append mode, as newline-delimited JSON, with exactly one record: the row |
| `BigQueryOperations.InsertJsonRow` | adk_hackathon_professional_development_agent/utils/bigquery_operations.py:119-146 | The outcome is that of the one append job; when it passes, the tables are those the job produces; when it fails, its exception is re-raised and the tables are unchanged |
| `BigQueryOperations.InsertAppendsOneRow` | adk_hackathon_professional_development_agent/utils/bigquery_operations.py:133-146 | A successful insertion adds exactly the row to the target table (one more copy of it in the table's multiset of rows), creating the table if absent, and leaves every other table unchanged; a failed one changes no table |
| `EmployeeProfileTool.ProfileQuery` | google_adk_professional_development_agent/tools/employee_profile_tool.py:59-72 | The query reads `get_table_ref("employee_profiles")`, selects the `skills` column among others, and filters on `email = @email`, where `@email` is the name of the one parameter the tool passes |
| `EmployeeProfileTool.ParseSkills` | google_adk_professional_development_agent/tools/employee_profile_tool.py:78 | One skill per comma plus one, empty pieces kept; the i-th skill is the i-th piece between commas, trimmed; no skill begins or ends with whitespace |
| `EmployeeProfileTool.ParseSkillsInvertsJoin` | google_adk_professional_development_agent/tools/employee_profile_tool.py:78 | A non-empty list of trimmed, comma-free skill names joined with ", " parses back to the same list, in the same order |
| `EmployeeProfileTool.ParseSkillsExample` | google_adk_professional_development_agent/tools/employee_profile_tool.py:17-24 | "Python, Java, Google Cloud" parses to ["Python", "Java", "Google Cloud"] |
| `EmployeeProfileTool.WithParsedSkills` | google_adk_professional_development_agent/tools/employee_profile_tool.py:76-79 | Only the skills column changes, to its parsed list. The other columns and the set of columns stay the same. A missing column raises `KeyError`; a non-string value raises `AttributeError` |
| `EmployeeProfileTool.GetEmployeeProfile` | google_adk_professional_development_agent/tools/employee_profile_tool.py:34-82 | A query exception is re-raised. No row found gives `None`. A found row is returned with its skills parsed |
| `EmployeeProfileTool.ProfileLookup` | google_adk_professional_development_agent/tools/employee_profile_tool.py:59-82 | The one query goes to `get_table_ref("employee_profiles")`, filtered by email, with the email as its only parameter. Its rows decide the result as above |
| `EmployeeTrainingHistoryTool.HistoryQuery` | google_adk_professional_development_agent/tools/employee_training_history_tool.py:60-75 | The query reads `get_table_ref("employee_trainings")`, selects the `date` column among others, and filters on `email = @email`, where `@email` is the name of the one parameter the tool passes |
| `EmployeeTrainingHistoryTool.WithIsoDate` | google_adk_professional_development_agent/tools/employee_training_history_tool.py:81 | Only the date column is replaced, and its new value is a string; every other column and the set of columns stay as they were |
| `EmployeeTrainingHistoryTool.WithIsoDateKeepsRow` | google_adk_professional_development_agent/tools/employee_training_history_tool.py:81 | The date becomes a `YYYY-MM-DD` string that parses back to the original date. Every other column, and the set of columns, is unchanged |
| `EmployeeTrainingHistoryTool.DateError` | google_adk_professional_development_agent/tools/employee_training_history_tool.py:81 | A row without a date column raises `KeyError("date")`; a row whose date value is not a date raises `AttributeError` for `strftime` |
| `EmployeeTrainingHistoryTool.FirstWithoutDate` | google_adk_professional_development_agent/tools/employee_training_history_tool.py:80-81 | The index where the loop stops: every earlier row has a date, and the row at that index, if any, has none |
| `EmployeeTrainingHistoryTool.FormatDates` | google_adk_professional_development_agent/tools/employee_training_history_tool.py:79-81 | In place: the rows before the stop index get their dates rewritten; that row and the later ones are as before. It passes exactly when every row has a date, and otherwise raises that row's exception. The invariant: rows not yet visited are unchanged |
| `EmployeeTrainingHistoryTool.GetEmployeeTrainingHistory` | google_adk_professional_development_agent/tools/employee_training_history_tool.py:36-83 | It queries `get_table_ref("employee_trainings")` by email. A query exception is re-raised. Otherwise: same number and order of rows, each with its date rewritten and nothing else changed; or the first date-less row's exception |
| `CalendarDates.FormatIsoDate` | google_adk_professional_development_agent/tools/employee_training_history_tool.py:81 | Ten characters: a zero-padded 4-digit year, "-", a 2-digit month, "-", a 2-digit day, each the digits of that field |
| `CalendarDates.PadDigits` | google_adk_professional_development_agent/tools/employee_training_history_tool.py:81 | Exactly `width` decimal digits whose value is the number |
| `CalendarDates.ParseFormatted` | google_adk_professional_development_agent/tools/employee_training_history_tool.py:81 | The formatted date parses back to the date |
| `CalendarDates.FormatParsed` | google_adk_professional_development_agent/tools/employee_training_history_tool.py:81 | A string that parses to a date is that date's formatted form, so formatting is a bijection onto the well-formed strings of existing dates |
| `CalendarDates.FormatInjective` | google_adk_professional_development_agent/tools/employee_training_history_tool.py:81 | Different dates format differently |
| `Text.IsSpaceIsPythonWhitespace` | google_adk_professional_development_agent/tools/employee_profile_tool.py:78 | The whitespace that `strip()` removes, `Text.IsSpace`, is exactly Python 3's 29 `isspace` characters: HT, LF, VT, FF, CR, FS, GS, RS, US, space, NEL, NBSP, U+1680, U+2000 to U+200A, U+2028, U+2029, U+202F, U+205F, U+3000 |
| `Text.Strip` | google_adk_professional_development_agent/tools/employee_profile_tool.py:78 | The result neither begins nor ends with whitespace and is no longer than the input |
| `Text.StripCutsOnlySpace` | google_adk_professional_development_agent/tools/employee_profile_tool.py:78 | The result is a slice of the input with only whitespace before and after it |
| `Text.StripUnique` | google_adk_professional_development_agent/tools/employee_profile_tool.py:78 | Any slice cut out by whitespace on both sides that neither begins nor ends with whitespace is the stripped string |
| `Text.Split` | google_adk_professional_development_agent/tools/employee_profile_tool.py:78 | One more piece than separators; no piece contains the separator |
| `Text.Join` | google_adk_professional_development_agent/config.py:109 | `sep.join(parts)`: no parts give "", one part gives that part; with more, `Text.JoinSplit` and `Text.SplitJoin` pin it down as the parts with the separator between each two |
| `Text.JoinSplit` | google_adk_professional_development_agent/tools/employee_profile_tool.py:78 | Joining the pieces with the separator gives back the string, so the pieces are in order |
| `Text.SplitJoin` | google_adk_professional_development_agent/tools/employee_profile_tool.py:78 | Splitting a join of separator-free parts (at least one) gives back the parts |
| `Text.SplitStripInvertsJoin` | google_adk_professional_development_agent/config.py:109 | A non-empty list of trimmed, comma-free names joined with ", " is read back by splitting at commas and trimming |

## Left out

- The agents, the intent routing and every answer are produced by a hosted LLM. There is no deterministic behaviour to state, so none of the agent declarations is modelled.
- The company information search tool, the data-store provisioning script, the deployment script and the HTTP bootstrap are not part of this model. They only pass identifiers to cloud services or start servers.
- The project portfolio and training registration tools are not part of this model. They are pass-throughs: an unfiltered SELECT, and a seven-field row handed to `insert_json_row`. Registration never checks the remaining budget.
- The remaining-budget tool is not part of this model. Its arithmetic, `3500.0 - SUM(cost_usd)`, runs in the warehouse on floats. Also, an aggregate query without GROUP BY always returns one row, and that row is non-empty even when the sum is NULL. So the `return 3500.0` fallback at adk_hackathon_professional_development_agent/tools/employee_remaining_training_budget_tool.py:71-72 is never reached: an employee without trainings gets `None`, not the full budget.
- The BigQuery client, `json.dumps` and `io.StringIO` are foreign library code. Query results and load outcomes are function arguments (`Executor`, `Loader`). The JSON text of a record is not modelled; a load job carries its records as rows, one per line. `BigQueryOperations.ApplyLoad` gives the documented meaning of a successful append, not the service itself.
- `BigQueryOperations.ApplyLoad`: a table is kept as a sequence, so an append puts the records after the existing rows. A BigQuery table has no row order, and `WRITE_APPEND` only promises that the rows are added; the order-free statement is the multiset clause of `BigQueryOperations.InsertAppendsOneRow`. A `Fail` outcome is taken to mean that the job loaded nothing: a load job is atomic, but `load_job.result()` can also raise while polling a job that goes on to complete, and that case is not modelled. Only the append disposition is modelled, because `WRITE_APPEND` is the only one the core configures.
- Logging is left out. Every `logging.error`, `logging.info` and `logging.warning` call is omitted.
- Reading the environment at import time, the module-level `config` singleton, and its validation on import are not modelled as effects. The environment is a map argument of `Config.Load`.
- `BigQueryOperations.Connect`: the client's project is taken to be the configured project. When the project is empty, the real client may fall back to a project of its own, and that fallback is not modelled. The tools take the warehouse as an argument; `BigQueryOperations.ConnectedTableRef` states what their table references are when it is the connected one. The warehouse module imports its settings from adk_hackathon_professional_development_agent/config.py, which is not part of this model. Its settings are taken to be those of the `Config` module.
- `CalendarDates.FormatIsoDate` always zero-pads the year to four digits, as ISO 8601 requires and as recent CPython releases do. Older CPython releases on glibc write years below 1000 without padding (`999-01-01`). For years 1000 to 9999, the only ones a training date realistically has, both agree.
- The `cost_usd` floats are only copied, never computed with, so they are carried as `real` values.
- Each row of the history is a separate dictionary in Python, so rewriting one row never changes another. The model stores the rows as map values in an array, which makes that independence automatic. Aliasing between rows is not modelled.
- `datetime` values and other objects that also have `strftime` are not among the modelled column values. Only `date` values are, which is what a `DATE` column yields.
