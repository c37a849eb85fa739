/** The process environment and the two ways the program reads it:
    `os.Getenv` and the repository's own `util.Getenv` (util/env.go).
    `os.LookupEnv` is `Lookup`, which tells a variable set to "" apart from
    an unset one. */
module Env {
  import opened Outcomes

  /** A variable that is set, even to the empty string, has an entry. */
  type Environment = map<string, string>

  /** `os.Getenv`: an unset variable reads as "". */
  function OsGetenv(env: Environment, key: string): (r: string)
    ensures key in env ==> r == env[key]
    ensures key !in env ==> r == ""
  {
    match Lookup(env, key)
    case Some(value) => value
    case None => ""
  }

  /** `util.Getenv`: the variable's value when it is set, otherwise the fallback. */
  function Getenv(env: Environment, key: string, fallback: string): (r: string)
    ensures key in env ==> r == env[key]
    ensures key !in env ==> r == fallback
  {
    match Lookup(env, key)
    case Some(value) => value
    case None => fallback
  }

  /** A variable set to the empty string yields "", never the fallback. */
  lemma GetenvKeepsEmptyValue(env: Environment, key: string, fallback: string)
    requires key in env && env[key] == ""
    ensures Getenv(env, key, fallback) == ""
  {
  }

  /** The result is the variable's value or the fallback, and it is the
      fallback whatever fallback is given exactly when the variable is unset. */
  lemma GetenvIsValueOrFallback(env: Environment, key: string, fallback: string, other: string)
    requires fallback != other
    ensures Getenv(env, key, fallback) == fallback || Getenv(env, key, fallback) == env[key]
    ensures Getenv(env, key, fallback) == fallback && Getenv(env, key, other) == other <==> key !in env
  {
  }

  /** With an empty fallback the two readers agree. */
  lemma GetenvEmptyFallbackIsOsGetenv(env: Environment, key: string)
    ensures Getenv(env, key, "") == OsGetenv(env, key)
  {
  }
}
