/**
 * src/common/helpers/environment.helper.ts: the `Environment` enum and
 * `getEnvironmentPath`, which picks the settings file to load. The process
 * variable `APP_ENV` and the filesystem test `existsSync` are parameters;
 * `path.resolve` is taken as plain concatenation of its `/`-joined argument.
 */
module EnvironmentHelper {
  import opened Wrappers

  datatype Environment = Development | Production | Staging | Test {
    /** The enum member's string value: one of the four lower-case names. */
    function Value(): (v: string)
      ensures v in ["development", "production", "staging", "test"]
    {
      match this
      case Development => "development"
      case Production => "production"
      case Staging => "staging"
      case Test => "test"
    }
  }

  /** The member whose value is `s`, if any: the inverse of `Value`. */
  function Parse(s: string): (r: Option<Environment>)
    ensures r.Some? ==> r.value.Value() == s
  {
    if s == "development" then Some(Development)
    else if s == "production" then Some(Production)
    else if s == "staging" then Some(Staging)
    else if s == "test" then Some(Test)
    else None
  }

  /** The four values are distinct, so each names exactly one member. */
  lemma ParseValue(e: Environment)
    ensures Parse(e.Value()) == Some(e)
  {
  }

  /**
   * `testing`, which the `APP_ENV` schema of the application module accepts,
   * is not a member: the enum spells that environment `test`.
   */
  lemma TestingIsNotAnEnvironment()
    ensures Parse("testing") == None
    ensures Parse(Test.Value()) == Some(Test)
  {
  }

  /** JavaScript truthiness of `process.env.APP_ENV`: set and non-empty. */
  predicate Truthy(appEnv: Option<string>) {
    appEnv.Some? && appEnv.value != ""
  }

  /** The file name tried first: `{APP_ENV}.env`, or `development.env` when `APP_ENV` is falsy. */
  function FileName(appEnv: Option<string>): (name: string)
    ensures Truthy(appEnv) ==> name == appEnv.value + ".env"
    ensures !Truthy(appEnv) ==> name == "development.env"
  {
    if Truthy(appEnv) then appEnv.value + ".env" else "development.env"
  }

  /** `dest/{file name}`: a path in `dest`, longer than the fallback. */
  function Candidate(dest: string, appEnv: Option<string>): (r: string)
    ensures |r| > |Fallback(dest)| && r[..|dest| + 1] == dest + "/" && r[|dest| + 1..] == FileName(appEnv)
  {
    dest + "/" + FileName(appEnv)
  }

  /** `dest/.env`: the `.env` file in `dest`. */
  function Fallback(dest: string): (r: string)
    ensures |r| == |dest| + 5 && r[..|dest| + 1] == dest + "/" && r[|dest| + 1..] == ".env"
  {
    dest + "/.env"
  }

  /**
   * The candidate is never the fallback: its file name is longer than `.env`.
   * This rests on `path.resolve` being plain concatenation here; the real
   * `resolve` normalises, so `APP_ENV=./` would make the candidate
   * `dest/./.env` resolve to the fallback `dest/.env`.
   */
  lemma CandidateIsNotFallback(dest: string, appEnv: Option<string>)
    ensures Candidate(dest, appEnv) != Fallback(dest)
  {
    assert |FileName(appEnv)| > 4;
    assert |Candidate(dest, appEnv)| > |Fallback(dest)|;
  }

  function GetEnvironmentPath(dest: string, appEnv: Option<string>, existsSync: string -> bool): (r: string)
    ensures r == Candidate(dest, appEnv) || r == Fallback(dest)
    ensures r == Fallback(dest) <==> !existsSync(Candidate(dest, appEnv))
    ensures r == Candidate(dest, appEnv) <==> existsSync(Candidate(dest, appEnv))
  {
    CandidateIsNotFallback(dest, appEnv);
    var filePath := Candidate(dest, appEnv);
    if !existsSync(filePath) then Fallback(dest) else filePath
  }

  /** A missing `{APP_ENV}.env` selects `dest/.env`, whether or not that file exists. */
  lemma MissingEnvFileFallsBack(dest: string, env: string, existsSync: string -> bool)
    requires env != ""
    requires !existsSync(dest + "/" + env + ".env")
    ensures GetEnvironmentPath(dest, Some(env), existsSync) == dest + "/.env"
  {
    assert Candidate(dest, Some(env)) == dest + "/" + env + ".env";
  }

  /** An unset or empty `APP_ENV` behaves as `development`. */
  lemma FalsyEnvIsDevelopment(dest: string, appEnv: Option<string>, existsSync: string -> bool)
    requires !Truthy(appEnv)
    ensures GetEnvironmentPath(dest, appEnv, existsSync)
         == GetEnvironmentPath(dest, Some(Development.Value()), existsSync)
  {
    assert FileName(appEnv) == FileName(Some(Development.Value()));
    assert Candidate(dest, appEnv) == Candidate(dest, Some(Development.Value()));
  }
}
