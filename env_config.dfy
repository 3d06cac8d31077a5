/** The environment configuration: the twelve settings, their fallbacks when
    the variable is unset or empty, and the check that then demands every one
    of them from the environment. The process environment is a map from
    variable name to value. */
module EnvConfig {
  import opened Wrappers
  import opened Lists

  /** `requiredConfig`, in the order it is checked. */
  const RequiredConfig: seq<string> := [
    "APP_PORT", "APP_URL", "DATABASE_URL", "DB_PORT", "PG_USER", "PG_PASSWORD",
    "PG_DATABASE", "DISCORD_CLIENT_ID", "DISCORD_CLIENT_SECRET", "DISCORD_CALLBACK_URL",
    "JWT_SECRET", "SESSION_SECRET"]

  /** The fallback of each field of `envConfig`. */
  const Defaults: map<string, string> := map[
    "APP_PORT" := "3000",
    "APP_URL" := "http://localhost:3005",
    "DATABASE_URL" := "localhost",
    "DB_PORT" := "5432",
    "PG_USER" := "postgres",
    "PG_PASSWORD" := "password",
    "PG_DATABASE" := "database",
    "DISCORD_CLIENT_ID" := "",
    "DISCORD_CLIENT_SECRET" := "",
    "DISCORD_CALLBACK_URL" := "",
    "JWT_SECRET" := "",
    "SESSION_SECRET" := "session_secret_key"
  ]

  /** An unset and an empty variable are alike: both are falsy. */
  predicate Missing(env: map<string, string>, key: string) {
    key !in env || env[key] == ""
  }

  /** The `envConfig` object as first built: `process.env[k] || fallback`. */
  function Initial(env: map<string, string>): (r: map<string, string>)
    ensures r.Keys == Defaults.Keys
    ensures forall k :: k in Defaults && !Missing(env, k) ==> r[k] == env[k]
    ensures forall k :: k in Defaults && Missing(env, k) ==> r[k] == Defaults[k]
  {
    map k | k in Defaults :: if Missing(env, k) then Defaults[k] else env[k]
  }

  /** `values` after `envConfig[key] = process.env[key]` for each of `keys`,
      in order. */
  function Overlaid(values: map<string, string>, env: map<string, string>, keys: seq<string>): (r: map<string, string>)
    requires forall k :: k in keys ==> !Missing(env, k)
    ensures forall k :: k in r <==> k in values || k in keys
    ensures forall k :: k in keys ==> k in env && r[k] == env[k]
    ensures forall k :: k in values && k !in keys ==> r[k] == values[k]
  {
    if keys == [] then values
    else
      var last := keys[|keys| - 1];
      assert keys == keys[..|keys| - 1] + [last];
      assert last in keys && !Missing(env, last);
      Overlaid(values, env, keys[..|keys| - 1])[last := env[last]]
  }

  /** The index of the first of `keys` that is missing, if any. */
  function FirstMissing(env: map<string, string>, keys: seq<string>): (r: Option<nat>)
    ensures r.None? <==> forall i :: 0 <= i < |keys| ==> !Missing(env, keys[i])
    ensures r.Some? ==> r.value < |keys| && Missing(env, keys[r.value])
    ensures r.Some? ==> forall j :: 0 <= j < r.value ==> !Missing(env, keys[j])
  {
    FirstIndex(keys, k => Missing(env, k))
  }

  /** The first missing key is the one the check stops at. */
  lemma FirstMissingAt(env: map<string, string>, keys: seq<string>, i: nat)
    requires i < |keys| && Missing(env, keys[i])
    requires forall k :: k in keys[..i] ==> !Missing(env, k)
    ensures FirstMissing(env, keys) == Some(i)
  {
    assert forall j :: 0 <= j < i ==> keys[j] in keys[..i];
  }

  function MissingVariable(key: string): string {
    "Missing required environment variable: " + key
  }

  /** The module-level `envConfig` object. */
  class Config {
    var values: map<string, string>

    constructor (env: map<string, string>)
      ensures values == Initial(env)
    {
      values := Initial(env);
    }

    /** The `forEach` pass over `keys`: copies each variable in, and stops
        at the first missing one with an error naming it, keeping the keys
        copied before it. */
    method Require(env: map<string, string>, keys: seq<string>) returns (r: Outcome<string>)
      modifies this
      ensures var m := FirstMissing(env, keys);
        && (m.None? ==> r == Pass && values == Overlaid(old(values), env, keys))
        && (m.Some? ==> r == Fail(MissingVariable(keys[m.value])) &&
                        values == Overlaid(old(values), env, keys[..m.value]))
    {
      var i := 0;
      while i < |keys|
        invariant 0 <= i <= |keys|
        invariant forall k :: k in keys[..i] ==> !Missing(env, k)
        invariant values == Overlaid(old(values), env, keys[..i])
      {
        var key := keys[i];
        if key !in env || env[key] == "" {
          FirstMissingAt(env, keys, i);
          return Fail(MissingVariable(key));
        }
        assert keys[..i + 1] == keys[..i] + [key];
        assert keys[..i + 1][..i] == keys[..i];
        values := values[key := env[key]];
        i := i + 1;
      }
      assert keys[..i] == keys;
      return Pass;
    }

    /** The check as the configuration module runs it, over `requiredConfig`. */
    method Validate(env: map<string, string>) returns (r: Outcome<string>)
      modifies this
      ensures var m := FirstMissing(env, RequiredConfig);
        && (m.None? ==> r == Pass && values == Overlaid(old(values), env, RequiredConfig))
        && (m.Some? ==> r == Fail(MissingVariable(RequiredConfig[m.value])) &&
                        values == Overlaid(old(values), env, RequiredConfig[..m.value]))
    {
      r := Require(env, RequiredConfig);
    }
  }

  /** When `keys` names every field, a pass over them that finds nothing
      missing replaces every fallback by the variable's value. */
  lemma AllFieldsCopied(env: map<string, string>, keys: seq<string>)
    requires forall k :: k in Defaults <==> k in keys
    requires FirstMissing(env, keys).None?
    ensures var after := Overlaid(Initial(env), env, keys);
      after.Keys == Defaults.Keys && forall k :: k in after ==> after[k] == env[k]
  {
    assert forall k :: k in keys ==> !Missing(env, k);
  }

  /** Every field of the configuration is required, so after a successful
      check no fallback is left: each field holds its variable's value. */
  lemma DefaultsNeverSurvive(env: map<string, string>)
    requires FirstMissing(env, RequiredConfig).None?
    ensures var after := Overlaid(Initial(env), env, RequiredConfig);
      after.Keys == Defaults.Keys && forall k :: k in after ==> after[k] == env[k]
  {
    forall k
      ensures k in Defaults <==> k in RequiredConfig
    {
      RequiredCoversDefaults(k);
    }
    AllFieldsCopied(env, RequiredConfig);
  }

  /** The required list names exactly the fields of the configuration. */
  lemma RequiredCoversDefaults(k: string)
    ensures k in Defaults <==> k in RequiredConfig
  {
  }

  /** An empty variable counts as missing twice over: the field falls back
      to its default, and the check fails. */
  lemma EmptyVariableIsMissing(env: map<string, string>, k: string)
    requires k in RequiredConfig && k in env && env[k] == ""
    ensures Initial(env)[k] == Defaults[k]
    ensures FirstMissing(env, RequiredConfig).Some?
  {
    RequiredCoversDefaults(k);
  }
}
