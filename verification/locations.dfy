/**
 The configuration source the binder queries (`ConfigLocation`, config.go
 lines 17-20) and its environment-variable implementation (`EnvConfig`,
 lines 22-36). The process environment is a map from variable name to value.
 */
module Locations {
  import opened Wrappers
  import opened Strconv
  import Strings

  /** A configuration source: a raw string by key, and an integer by key that
      may fail. Any pair of total functions is a valid source. */
  datatype ConfigLocation = ConfigLocation(GetString: string -> string, GetInt: string -> IntResult)

  /** `os.Getenv`: an unset variable reads as the empty string. */
  function Getenv(env: map<string, string>, key: string): string {
    if key in env then env[key] else ""
  }

  /** `EnvConfig.value`: upper-case the key, then read the environment. */
  function EnvValue(env: map<string, string>, key: string): (v: string)
    ensures Strings.ToUpper(key) in env ==> v == env[Strings.ToUpper(key)]
    ensures Strings.ToUpper(key) !in env ==> v == ""
  {
    Getenv(env, Strings.ToUpper(key))
  }

  /** `EnvConfig.GetInt`: Atoi of exactly what `GetString` returns. It succeeds
      exactly when the variable holds a 64-bit literal, with that literal's
      value, so an unset variable is a syntax error with value 0. */
  function EnvGetInt(env: map<string, string>, key: string): (r: IntResult)
    ensures var v := EnvValue(env, key);
      r.err.None? <==> WellFormed(v) && InInt64(DecimalValue(v))
    ensures var v := EnvValue(env, key);
      r.err.None? ==> r.n == DecimalValue(v)
    ensures Strings.ToUpper(key) !in env ==> r == IntResult(0, Some(ErrSyntax))
  {
    AtoiAcceptsExactlyWellFormed(EnvValue(env, key));
    Atoi(EnvValue(env, key))
  }

  /** `EnvConfig` as a configuration source: GetString is the upper-cased
      lookup, and GetInt is Atoi of exactly that string, so an unset variable
      is a failed conversion. */
  function EnvConfig(env: map<string, string>): (loc: ConfigLocation)
    ensures forall key :: loc.GetString(key) == EnvValue(env, key)
    ensures forall key :: loc.GetInt(key) == Atoi(loc.GetString(key))
  {
    ConfigLocation(key => EnvValue(env, key), key => EnvGetInt(env, key))
  }

}
