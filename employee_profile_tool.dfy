/** The employee profile tool: looks a profile up by email and turns its
    comma-separated skills string into a list of trimmed skill names. */
module EmployeeProfileTool {
  import opened Results
  import Text
  import opened BigQueryOperations

  /** The profile lookup: the five profile columns of the
      `employee_profiles` table, filtered by the `email` parameter. */
  function ProfileQuery(w: Warehouse): (q: Query)
    ensures q.table == TableRef(w, "employee_profiles") && "skills" in q.columns
    ensures q.condition.Some? && q.condition.value.column == "email"
    ensures forall e :: q.condition.value.parameter == EmailParameters(e)[0].name
  {
    Select(["name", "email", "department", "role", "skills"], TableRef(w, "employee_profiles"),
           Some(ColumnEquals("email", "email")))
  }

  /** `[skill.strip() for skill in skills.split(",")]`: one entry per piece
      between commas, empty pieces kept, in order, each trimmed. */
  function ParseSkills(skills: string): (r: seq<string>)
    ensures |r| == Text.Count(skills, ',') + 1
    ensures forall i :: 0 <= i < |r| ==> r[i] == Text.Strip(Text.Split(skills, ',')[i])
    ensures forall i :: 0 <= i < |r| ==> Text.IsStripped(r[i])
  {
    Text.StripEach(Text.Split(skills, ','))
  }

  /** A list of skill names stored the usual way, joined with ", ", is read
      back as the same list, provided no name contains a comma or has
      surrounding whitespace. */
  lemma ParseSkillsInvertsJoin(skills: seq<string>)
    requires |skills| > 0
    requires forall s :: s in skills ==> ',' !in s && Text.IsStripped(s)
    ensures ParseSkills(Text.Join(skills, ", ")) == skills
  {
    Text.SplitStripInvertsJoin(skills);
  }

  /** The example of the tool's documentation. */
  lemma ParseSkillsExample()
    ensures ParseSkills("Python, Java, Google Cloud") == ["Python", "Java", "Google Cloud"]
  {
    var skills := ["Python", "Java", "Google Cloud"];
    assert skills[1..] == ["Java", "Google Cloud"] && skills[2..] == ["Google Cloud"];
    assert Text.Join(skills, ", ") == "Python, Java, Google Cloud";
    forall s | s in skills ensures ',' !in s && Text.IsStripped(s) {
    }
    ParseSkillsInvertsJoin(skills);
  }

  /** `row["skills"] = [...]`: the skills column replaced by its parsed
      list, every other column untouched. `row["skills"]` raises `KeyError`
      when the column is absent, and `.split` raises `AttributeError` when
      its value is not a string (a SQL NULL, say). */
  function WithParsedSkills(row: Row): (r: Result<Row>)
    ensures r.Success? <==> "skills" in row && row["skills"].Str?
    ensures r.Success? ==> r.value.Keys == row.Keys &&
                           r.value["skills"] == StrList(ParseSkills(row["skills"].s)) &&
                           forall k :: k in row && k != "skills" ==> r.value[k] == row[k]
    ensures r.Failure? ==> r.error == if "skills" in row then AttributeError("split") else KeyError("skills")
  {
    if "skills" !in row then Failure(KeyError("skills"))
    else match row["skills"]
      case Str(s) => Success(row["skills" := StrList(ParseSkills(s))])
      case _ => Failure(AttributeError("split"))
  }

  /** `get_employee_profile`: the profile row of `email` with its skills
      parsed; `None` when no profile row is found; a query exception is
      re-raised unchanged. */
  function GetEmployeeProfile(w: Warehouse, run: Executor, email: string): (r: Result<Option<Row>>)
    ensures var found := QuerySingleRow(run, ProfileQuery(w), Some(EmailParameters(email)));
            (found.Failure? ==> r == Failure(found.error)) &&
            (found.Success? && found.value.None? ==> r == Success(None)) &&
            (found.Success? && found.value.Some? ==>
               var parsed := WithParsedSkills(found.value.value);
               r == if parsed.Success? then Success(Some(parsed.value)) else Failure(parsed.error))
  {
    match QuerySingleRow(run, ProfileQuery(w), Some(EmailParameters(email)))
    case Failure(e) => Failure(e)
    case Success(None) => Success(None)
    case Success(Some(row)) =>
      match WithParsedSkills(row)
      case Failure(e) => Failure(e)
      case Success(profile) => Success(Some(profile))
  }

  /** What the profile tool promises its callers: the lookup is the only
      query, by the profile table and the email alone; a found profile keeps
      every column but skills, whose string becomes its trimmed pieces; no
      profile gives `None`. */
  lemma ProfileLookup(w: Warehouse, run: Executor, email: string)
    ensures var res := run(Select(["name", "email", "department", "role", "skills"],
                                  TableRef(w, "employee_profiles"), Some(ColumnEquals("email", "email"))),
                           [ScalarQueryParameter("email", "STRING", email)]);
            var r := GetEmployeeProfile(w, run, email);
            (res.Failure? ==> r == Failure(res.error)) &&
            (res.Success? && (|res.value| == 0 || res.value[0] == map[]) ==> r == Success(None)) &&
            (res.Success? && |res.value| > 0 && res.value[0] != map[] && "skills" in res.value[0] &&
             res.value[0]["skills"].Str? ==>
               r.Success? && r.value.Some? &&
               r.value.value.Keys == res.value[0].Keys &&
               r.value.value["skills"] == StrList(ParseSkills(res.value[0]["skills"].s)) &&
               forall k :: k in res.value[0] && k != "skills" ==> r.value.value[k] == res.value[0][k])
  {
  }
}
