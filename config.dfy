/**
 * `check_env_vars` of event_manager/upload_scores/config.py: which
 * environment variables the uploader needs, which of them are missing, and
 * the error raised when any is.
 */
module Config {
  import opened Wrappers
  import opened PyStr

  /** The process environment: variable name to value; unset names are absent. */
  type Env = map<string, string>

  const BaseVars: seq<string> := ["MONGO_URI", "USE_GOOGLE_SHEETS", "CSV_PATH"]
  const GoogleVars: seq<string> := ["GOOGLE_SERVICE_ACCOUNT_JSON", "SPREADSHEET_ID"]

  /** `os.getenv(name, default)`. */
  function GetEnv(env: Env, name: string, default: string): string {
    if name in env then env[name] else default
  }

  /**
   * `os.getenv("USE_GOOGLE_SHEETS", "false").lower() == "true"`. Only ASCII
   * letters are lowered; no other character lowers to one of "true".
   */
  predicate UsesGoogleSheets(env: Env) {
    AsciiLower(GetEnv(env, "USE_GOOGLE_SHEETS", "false")) == "true"
  }

  /** `os.getenv(name)` is truthy: the variable is set and not empty. */
  predicate IsSet(env: Env, name: string) {
    name in env && env[name] != ""
  }

  /** The required variable names, in the order they are listed. */
  function RequiredVars(env: Env): (r: seq<string>)
    ensures |r| >= 3 && r[..3] == BaseVars
    ensures UsesGoogleSheets(env) ==> r == BaseVars + GoogleVars
    ensures !UsesGoogleSheets(env) ==> r == BaseVars
  {
    if UsesGoogleSheets(env) then BaseVars + GoogleVars else BaseVars
  }

  /** The names of `vars` that are not set, in their order in `vars`. */
  function Unset(env: Env, vars: seq<string>): seq<string> {
    if vars == [] then []
    else Unset(env, vars[..|vars| - 1]) + (if IsSet(env, vars[|vars| - 1]) then [] else [vars[|vars| - 1]])
  }

  function Missing(env: Env): seq<string> {
    Unset(env, RequiredVars(env))
  }

  /**
   * `check_env_vars()`: raises exactly when some required variable is
   * missing, with a message listing them in required-list order.
   */
  function CheckEnvVars(env: Env): (r: Outcome<string>)
    ensures r.Fail? <==> exists v :: v in RequiredVars(env) && !IsSet(env, v)
    ensures r.Fail? ==> r.error == "Missing required environment variables: " + Join(", ", Missing(env))
  {
    MissingIff(env, RequiredVars(env));
    var missing := Missing(env);
    assert missing != [] ==> missing[0] in missing;
    if missing != [] then Fail("Missing required environment variables: " + Join(", ", missing)) else Pass
  }

  /** A name is reported missing iff it is required and unset or empty. */
  lemma {:induction false} MissingIff(env: Env, vars: seq<string>)
    ensures forall v :: v in Unset(env, vars) <==> v in vars && !IsSet(env, v)
    ensures |Unset(env, vars)| <= |vars|
  {
    if vars != [] {
      var init := vars[..|vars| - 1];
      MissingIff(env, init);
      assert vars == init + [vars[|vars| - 1]];
    }
  }

  /** The order of the missing names follows the required list: Unset distributes over concatenation. */
  lemma {:induction false} UnsetAppend(env: Env, a: seq<string>, b: seq<string>)
    ensures Unset(env, a + b) == Unset(env, a) + Unset(env, b)
  {
    if b != [] {
      var b' := b[..|b| - 1];
      assert (a + b)[..|a + b| - 1] == a + b';
      UnsetAppend(env, a, b');
    } else {
      assert a + b == a;
    }
  }

  /** The three base variables are always required, and are reported whenever unset. */
  lemma BaseAlwaysRequired(env: Env, v: string)
    requires v in BaseVars
    ensures v in RequiredVars(env)
    ensures !IsSet(env, v) ==> v in Missing(env)
  {
    MissingIff(env, RequiredVars(env));
  }

  /** The Google credentials are required iff the flag lowers to "true". */
  lemma GoogleRequiredIff(env: Env)
    ensures "GOOGLE_SERVICE_ACCOUNT_JSON" in RequiredVars(env) <==> UsesGoogleSheets(env)
    ensures "SPREADSHEET_ID" in RequiredVars(env) <==> UsesGoogleSheets(env)
  {
    if !UsesGoogleSheets(env) {
      assert RequiredVars(env) == BaseVars;
      assert BaseVars[0] != "GOOGLE_SERVICE_ACCOUNT_JSON" && BaseVars[1] != "GOOGLE_SERVICE_ACCOUNT_JSON" && BaseVars[2] != "GOOGLE_SERVICE_ACCOUNT_JSON";
      assert BaseVars[0] != "SPREADSHEET_ID" && BaseVars[1] != "SPREADSHEET_ID" && BaseVars[2] != "SPREADSHEET_ID";
    }
  }

  /**
   * An unset `USE_GOOGLE_SHEETS` defaults to "false" for the flag test, so
   * the Google variables are not required, yet the flag itself is reported
   * missing and the check fails.
   */
  lemma UnsetFlag(env: Env)
    requires "USE_GOOGLE_SHEETS" !in env
    ensures RequiredVars(env) == BaseVars
    ensures "USE_GOOGLE_SHEETS" in Missing(env)
    ensures CheckEnvVars(env).Fail?
  {
    assert AsciiLower("false") == "false";
    MissingIff(env, BaseVars);
    assert "USE_GOOGLE_SHEETS" == BaseVars[1];
  }
}
