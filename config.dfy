/**
 * The server's configuration (pkg/config/config.go): each setting is read from the process
 * environment, given here as a map from variable name to value. A required variable that is
 * not set ends the process; that is the `Err` case, carrying the logged message.
 */
module Config {
  import opened Wrappers

  datatype Config = Config(port: string, databaseUrl: string, jwtSecretKey: string,
                           ginMode: string, cloudinaryUrl: string)

  /** The one variable that may be unset with no default. */
  const OptionalKey := "CLOUDINARY_URL"

  function FatalMessage(key: string): string {
    "FATAL: Required environment variable " + key + " is not set"
  }

  /**
   * `getEnv`: a variable that is set is taken as it is, even when empty; an unset variable
   * gives the fallback, unless the fallback is empty, which is fatal for every key but
   * `CLOUDINARY_URL`.
   */
  function GetEnv(env: map<string, string>, key: string, fallback: string): (r: Result<string, string>)
    ensures key in env ==> r == Ok(env[key])
    ensures key !in env && (fallback != "" || key == OptionalKey) ==> r == Ok(fallback)
    ensures r.Err? <==> key !in env && fallback == "" && key != OptionalKey
    ensures r.Err? ==> r.error == FatalMessage(key)
  {
    if key in env then Ok(env[key])
    else if fallback == "" && key != OptionalKey then Err(FatalMessage(key))
    else Ok(fallback)
  }

  /**
   * `New`: the five settings with their fallbacks. Only `DATABASE_URL` has an empty fallback
   * among the required ones, so it is the only lookup that can end the process.
   */
  function New(env: map<string, string>): (r: Result<Config, string>)
    ensures r.Ok? <==> "DATABASE_URL" in env
    ensures r.Err? ==> r.error == FatalMessage("DATABASE_URL")
    ensures r.Ok? ==>
      r.value.databaseUrl == env["DATABASE_URL"] &&
      r.value.port == (if "PORT" in env then env["PORT"] else "8080") &&
      r.value.jwtSecretKey == (if "JWT_SECRET_KEY" in env then env["JWT_SECRET_KEY"] else "secret") &&
      r.value.ginMode == (if "GIN_MODE" in env then env["GIN_MODE"] else "debug") &&
      r.value.cloudinaryUrl == (if OptionalKey in env then env[OptionalKey] else "")
  {
    match GetEnv(env, "DATABASE_URL", "")
    case Err(message) => Err(message)
    case Ok(databaseUrl) =>
      Ok(Config(GetEnv(env, "PORT", "8080").value, databaseUrl, GetEnv(env, "JWT_SECRET_KEY", "secret").value,
                GetEnv(env, "GIN_MODE", "debug").value, GetEnv(env, OptionalKey, "").value))
  }

  /** With only `DATABASE_URL` set, every other setting takes its default. */
  lemma Defaults(url: string)
    ensures New(map["DATABASE_URL" := url]) == Ok(Config("8080", url, "secret", "debug", ""))
  {
  }

  /** A variable set to the empty string is not replaced by its default. */
  lemma EmptyValueIsKept(env: map<string, string>)
    requires "DATABASE_URL" in env && "PORT" in env && env["PORT"] == ""
    ensures New(env).Ok? && New(env).value.port == ""
  {
  }
}
