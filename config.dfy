/** The agent's settings, read from environment variables with defaults,
    and the check that the four settings the rest of the system cannot do
    without are present. The environment is an explicit map argument. */
module Config {
  import opened Results
  import Text

  /** The process environment: variable name to value. */
  type Environment = map<string, string>

  /** The settings, one field per environment variable. The staging bucket
      has no default, so it is absent when its variable is unset. */
  datatype Settings = Settings(
    googleCloudProject: string,
    googleCloudLocation: string,
    bigqueryDatasetId: string,
    vertexAiSearchDataStoreId: string,
    vertexAiSearchDataStoreLocation: string,
    vertexAiSearchDataStoreBucket: string,
    modelName: string,
    vertexAiStagingBucket: Option<string>)

  /** `os.getenv(name, default)`: the variable's value when it is set, even
      to the empty string; the default otherwise. */
  function GetEnv(env: Environment, name: string, default: string): (value: string)
    ensures name in env ==> value == env[name]
    ensures name !in env ==> value == default
  {
    if name in env then env[name] else default
  }

  /** The settings as the class attributes are initialised from `env`. Each
      variable that is not set gives its setting the default, whichever
      other variables are set; the staging bucket has no default and is
      then absent. */
  function Load(env: Environment): (c: Settings)
    ensures "GOOGLE_CLOUD_PROJECT" !in env ==> c.googleCloudProject == ""
    ensures "GOOGLE_CLOUD_LOCATION" !in env ==> c.googleCloudLocation == "US"
    ensures "BIGQUERY_DATASET_ID" !in env ==> c.bigqueryDatasetId == "amazincorp"
    ensures "VERTEX_AI_SEARCH_DATA_STORE_ID" !in env ==> c.vertexAiSearchDataStoreId == ""
    ensures "VERTEX_AI_SEARCH_DATA_STORE_LOCATION" !in env ==> c.vertexAiSearchDataStoreLocation == "global"
    ensures "VERTEX_AI_SEARCH_DATA_STORE_BUCKET" !in env ==> c.vertexAiSearchDataStoreBucket == ""
    ensures "MODEL_NAME" !in env ==> c.modelName == "gemini-2.0-flash"
    ensures "VERTEX_AI_STAGING_BUCKET" !in env ==> c.vertexAiStagingBucket == None
  {
    Settings(
      googleCloudProject := GetEnv(env, "GOOGLE_CLOUD_PROJECT", ""),
      googleCloudLocation := GetEnv(env, "GOOGLE_CLOUD_LOCATION", "US"),
      bigqueryDatasetId := GetEnv(env, "BIGQUERY_DATASET_ID", "amazincorp"),
      vertexAiSearchDataStoreId := GetEnv(env, "VERTEX_AI_SEARCH_DATA_STORE_ID", ""),
      vertexAiSearchDataStoreLocation := GetEnv(env, "VERTEX_AI_SEARCH_DATA_STORE_LOCATION", "global"),
      vertexAiSearchDataStoreBucket := GetEnv(env, "VERTEX_AI_SEARCH_DATA_STORE_BUCKET", ""),
      modelName := GetEnv(env, "MODEL_NAME", "gemini-2.0-flash"),
      vertexAiStagingBucket :=
        if "VERTEX_AI_STAGING_BUCKET" in env then Some(env["VERTEX_AI_STAGING_BUCKET"]) else None)
  }

  /** With no variable set, every setting takes its default. */
  lemma LoadDefaults()
    ensures Load(map[]) == Settings("", "US", "amazincorp", "", "global", "", "gemini-2.0-flash", None)
  {
  }

  /** A variable that is set overrides the default of its setting, whatever
      its value, the empty string included. */
  lemma LoadTakesSetVariables(env: Environment)
    ensures "GOOGLE_CLOUD_PROJECT" in env ==> Load(env).googleCloudProject == env["GOOGLE_CLOUD_PROJECT"]
    ensures "GOOGLE_CLOUD_LOCATION" in env ==> Load(env).googleCloudLocation == env["GOOGLE_CLOUD_LOCATION"]
    ensures "BIGQUERY_DATASET_ID" in env ==> Load(env).bigqueryDatasetId == env["BIGQUERY_DATASET_ID"]
    ensures "VERTEX_AI_SEARCH_DATA_STORE_ID" in env ==>
              Load(env).vertexAiSearchDataStoreId == env["VERTEX_AI_SEARCH_DATA_STORE_ID"]
    ensures "VERTEX_AI_SEARCH_DATA_STORE_LOCATION" in env ==>
              Load(env).vertexAiSearchDataStoreLocation == env["VERTEX_AI_SEARCH_DATA_STORE_LOCATION"]
    ensures "VERTEX_AI_SEARCH_DATA_STORE_BUCKET" in env ==>
              Load(env).vertexAiSearchDataStoreBucket == env["VERTEX_AI_SEARCH_DATA_STORE_BUCKET"]
    ensures "MODEL_NAME" in env ==> Load(env).modelName == env["MODEL_NAME"]
    ensures "VERTEX_AI_STAGING_BUCKET" in env <==> Load(env).vertexAiStagingBucket.Some?
    ensures "VERTEX_AI_STAGING_BUCKET" in env ==>
              Load(env).vertexAiStagingBucket == Some(env["VERTEX_AI_STAGING_BUCKET"])
  {
  }

  /** The environment variables of the required settings, in the order in
      which validation reports them. */
  const RequiredVariables: seq<string> :=
    ["GOOGLE_CLOUD_PROJECT", "BIGQUERY_DATASET_ID", "VERTEX_AI_SEARCH_DATA_STORE_ID", "MODEL_NAME"]

  /** The value of the `i`-th required setting. */
  function RequiredValue(c: Settings, i: nat): string
    requires i < |RequiredVariables|
  {
    match i
    case 0 => c.googleCloudProject
    case 1 => c.bigqueryDatasetId
    case 2 => c.vertexAiSearchDataStoreId
    case _ => c.modelName
  }

  /** Position of a variable in `RequiredVariables` (4 for any other name). */
  function Rank(name: string): nat {
    if name == RequiredVariables[0] then 0
    else if name == RequiredVariables[1] then 1
    else if name == RequiredVariables[2] then 2
    else if name == RequiredVariables[3] then 3
    else 4
  }

  /** Each required variable ranks at its own position, so the names are
      distinct. */
  lemma RanksOfRequired()
    ensures forall i :: 0 <= i < |RequiredVariables| ==> Rank(RequiredVariables[i]) == i
  {
    assert |RequiredVariables[0]| == 20 && |RequiredVariables[1]| == 19;
    assert |RequiredVariables[2]| == 30 && |RequiredVariables[3]| == 10;
  }

  /** `Config.is_valid`: every required setting is non-empty (a Python
      string is true exactly when it is not empty). */
  predicate IsValid(c: Settings): (valid: bool)
    ensures valid <==> forall i :: 0 <= i < |RequiredVariables| ==> RequiredValue(c, i) != ""
  {
    assert RequiredValue(c, 0) == c.googleCloudProject && RequiredValue(c, 1) == c.bigqueryDatasetId;
    assert RequiredValue(c, 2) == c.vertexAiSearchDataStoreId && RequiredValue(c, 3) == c.modelName;
    c.googleCloudProject != "" && c.bigqueryDatasetId != "" &&
    c.vertexAiSearchDataStoreId != "" && c.modelName != ""
  }

  /** The `missing` list that `validate` builds by four conditional appends:
      exactly the variables of the empty required settings, each once, in
      the order of `RequiredVariables`. */
  function MissingNames(c: Settings): (missing: seq<string>)
    ensures forall i :: 0 <= i < |RequiredVariables| ==>
              (RequiredVariables[i] in missing <==> RequiredValue(c, i) == "")
    ensures forall n :: n in missing ==> n in RequiredVariables
    ensures forall i, j :: 0 <= i < j < |missing| ==> Rank(missing[i]) < Rank(missing[j])
    ensures missing == [] <==> IsValid(c)
  {
    RanksOfRequired();
    var m0 := if c.googleCloudProject == "" then [RequiredVariables[0]] else [];
    var m1 := if c.bigqueryDatasetId == "" then m0 + [RequiredVariables[1]] else m0;
    var m2 := if c.vertexAiSearchDataStoreId == "" then m1 + [RequiredVariables[2]] else m1;
    if c.modelName == "" then m2 + [RequiredVariables[3]] else m2
  }

  const MissingPrefix: string := "Missing required environment variables: "

  /** `Config.validate`: nothing happens when the settings are valid;
      otherwise a `ValueError` whose message lists the missing variables,
      of which there is at least one. */
  function Validate(c: Settings): (o: Outcome)
    ensures o.Pass? <==> IsValid(c)
    ensures o.Fail? ==> MissingNames(c) != [] &&
                        o.error == ValueError(MissingPrefix + Text.Join(MissingNames(c), ", "))
  {
    if IsValid(c) then Pass
    else Fail(ValueError(MissingPrefix + Text.Join(MissingNames(c), ", ")))
  }

  /** The list in a validation error can be read back: after the fixed
      prefix, splitting at the commas and trimming each piece gives exactly
      the missing variables. */
  lemma ValidationMessageNamesMissing(c: Settings)
    requires Validate(c).Fail?
    ensures Validate(c).error.ValueError?
    ensures var message := Validate(c).error.message;
            |MissingPrefix| <= |message| && message[..|MissingPrefix|] == MissingPrefix &&
            Text.StripEach(Text.Split(message[|MissingPrefix|..], ',')) == MissingNames(c)
  {
    var missing := MissingNames(c);
    RequiredVariablesArePlain();
    Text.SplitStripInvertsJoin(missing);
    var listed := Text.Join(missing, ", ");
    assert (MissingPrefix + listed)[|MissingPrefix|..] == listed;
  }

  /** No required variable name contains a comma or surrounding whitespace. */
  lemma RequiredVariablesArePlain()
    ensures forall n :: n in RequiredVariables ==> ',' !in n && Text.IsStripped(n)
  {
    PlainName(RequiredVariables[0]);
    PlainName(RequiredVariables[1]);
    PlainName(RequiredVariables[2]);
    PlainName(RequiredVariables[3]);
  }

  /** A name of capital letters and underscores is plain. */
  lemma PlainName(n: string)
    requires forall k :: 0 <= k < |n| ==> 'A' <= n[k] <= 'Z' || n[k] == '_'
    ensures ',' !in n && Text.IsStripped(n)
  {
  }

  /** Validity depends only on the four required settings: the locations
      and the buckets, the staging bucket even when absent, never matter. */
  lemma ValidityIgnoresOptionalSettings(c: Settings, location: string, searchLocation: string,
                                        searchBucket: string, stagingBucket: Option<string>)
    ensures var d := c.(googleCloudLocation := location,
                        vertexAiSearchDataStoreLocation := searchLocation,
                        vertexAiSearchDataStoreBucket := searchBucket,
                        vertexAiStagingBucket := stagingBucket);
            IsValid(d) == IsValid(c) && Validate(d) == Validate(c)
  {
    var d := c.(googleCloudLocation := location,
                vertexAiSearchDataStoreLocation := searchLocation,
                vertexAiSearchDataStoreBucket := searchBucket,
                vertexAiStagingBucket := stagingBucket);
    assert MissingNames(d) == MissingNames(c);
  }

  /** With no variable set, validation fails and reports the project and the
      search data store, the two required settings without a usable default. */
  lemma DefaultsFailValidation()
    ensures Validate(Load(map[])) ==
            Fail(ValueError(MissingPrefix + "GOOGLE_CLOUD_PROJECT" + ", " + "VERTEX_AI_SEARCH_DATA_STORE_ID"))
  {
    var c := Load(map[]);
    LoadDefaults();
    var missing := [RequiredVariables[0], RequiredVariables[2]];
    assert MissingNames(c) == missing;
    assert missing[1..] == [RequiredVariables[2]];
  }
}
