/**
  `initialize` (src/worker.js:7-53): the Cloudflare account settings read
  from the environment, the checks that the required ones are there, and
  the authentication headers derived from them.
*/
module Config {
  import opened Wrappers

  /** The options `initialize` reads. */
  datatype Prop = AuthEmail | AuthKey | AccountId | ApiToken | NamespaceId

  /** Legacy environment variables and the option each one sets. */
  const LEGACY_ENV: seq<(string, Prop)> := [
    ("CF_AUTH_EMAIL", AuthEmail),
    ("CF_AUTH_KEY", AuthKey),
    ("CF_ACCOUNT_ID", AccountId),
    ("CF_API_TOKEN", ApiToken),
    ("CF_NAMESPACE_ID", NamespaceId)
  ]

  /** Current environment variables, read after the legacy ones. */
  const CURRENT_ENV: seq<(string, Prop)> := [
    ("CLOUDFLARE_AUTH_EMAIL", AuthEmail),
    ("CLOUDFLARE_AUTH_KEY", AuthKey),
    ("CLOUDFLARE_ACCOUNT_ID", AccountId),
    ("CLOUDFLARE_API_TOKEN", ApiToken),
    ("CLOUDFLARE_NAMESPACE_ID", NamespaceId)
  ]

  const ALWAYS_REQUIRED: seq<Prop> := [AccountId, NamespaceId]
  const ONE_OF_IS_REQUIRED: seq<Prop> := [AuthKey, ApiToken]

  /** The options and the authentication headers sent with every request. */
  datatype Settings = Settings(opts: map<Prop, string>, authHeaders: map<string, string>)

  datatype ConfigError =
    | MissingRequired(required: seq<Prop>)
    | MissingAuth(oneOf: seq<Prop>)

  /** `m[k]` is a non-empty string: JavaScript truthiness of a string property. */
  predicate IsSet<K>(m: map<K, string>, k: K)
  {
    k in m && m[k] != ""
  }

  /** Copies, in table order, every set variable of `table` onto the option it names. */
  function Overlay(opts: map<Prop, string>, table: seq<(string, Prop)>, env: map<string, string>): map<Prop, string>
    decreases |table|
  {
    if table == [] then opts
    else
      var (name, prop) := table[0];
      Overlay(if IsSet(env, name) then opts[prop := env[name]] else opts, table[1..], env)
  }

  const ALL_PROPS: set<Prop> := {AuthEmail, AuthKey, AccountId, ApiToken, NamespaceId}

  /** The legacy variable of each option. */
  function LegacyName(p: Prop): string
  {
    match p
    case AuthEmail => "CF_AUTH_EMAIL"
    case AuthKey => "CF_AUTH_KEY"
    case AccountId => "CF_ACCOUNT_ID"
    case ApiToken => "CF_API_TOKEN"
    case NamespaceId => "CF_NAMESPACE_ID"
  }

  /** The current variable of each option. */
  function CurrentName(p: Prop): string
  {
    match p
    case AuthEmail => "CLOUDFLARE_AUTH_EMAIL"
    case AuthKey => "CLOUDFLARE_AUTH_KEY"
    case AccountId => "CLOUDFLARE_ACCOUNT_ID"
    case ApiToken => "CLOUDFLARE_API_TOKEN"
    case NamespaceId => "CLOUDFLARE_NAMESPACE_ID"
  }

  /** The value of an option: its current variable if set, else its legacy variable if set. */
  function Setting(env: map<string, string>, p: Prop): Option<string>
  {
    if IsSet(env, CurrentName(p)) then Some(env[CurrentName(p)])
    else if IsSet(env, LegacyName(p)) then Some(env[LegacyName(p)])
    else None
  }

  /** The options read from the environment: every option that has a setting, with its value. */
  function OptionsOf(env: map<string, string>): map<Prop, string>
  {
    map p | p in ALL_PROPS && Setting(env, p).Some? :: Setting(env, p).value
  }

  /** The authentication headers: a bearer token if there is one, else the key and e-mail pair if both are set. */
  function AuthHeaders(opts: map<Prop, string>): map<string, string>
  {
    if IsSet(opts, ApiToken) then map["Authorization" := "Bearer " + opts[ApiToken]]
    else if IsSet(opts, AuthKey) && IsSet(opts, AuthEmail) then
      map["X-Auth-Key" := opts[AuthKey], "X-Auth-Email" := opts[AuthEmail]]
    else map[]
  }

  /** `!required.every(key => opts[key])`. */
  predicate SomeUnset(opts: map<Prop, string>, required: seq<Prop>)
  {
    exists k :: k in required && !IsSet(opts, k)
  }

  /** `!oneOf.some(key => opts[key])`. */
  predicate NoneSet(opts: map<Prop, string>, oneOf: seq<Prop>)
  {
    forall k :: k in oneOf ==> !IsSet(opts, k)
  }

  /** What `initialize(moreRequired)` returns, or the error it exits with. */
  function Configure(env: map<string, string>, more: seq<Prop>): Result<Settings, ConfigError>
  {
    var opts := OptionsOf(env);
    var required := ALWAYS_REQUIRED + more;
    if SomeUnset(opts, required) then Err(MissingRequired(required))
    else if NoneSet(opts, ONE_OF_IS_REQUIRED) then Err(MissingAuth(ONE_OF_IS_REQUIRED))
    else Ok(Settings(opts, AuthHeaders(opts)))
  }

  /** The environment variable of `table` that sets `prop`, if any. */
  function VariableFor(table: seq<(string, Prop)>, prop: Prop): (v: Option<string>)
    ensures v.Some? ==> exists i :: 0 <= i < |table| && table[i] == (v.value, prop)
    ensures v.None? ==> forall i :: 0 <= i < |table| ==> table[i].1 != prop
    decreases |table|
  {
    if table == [] then None
    else if table[0].1 == prop then Some(table[0].0)
    else VariableFor(table[1..], prop)
  }

  predicate DistinctProps(table: seq<(string, Prop)>)
  {
    forall i, j :: 0 <= i < j < |table| ==> table[i].1 != table[j].1
  }

  /** Overlaying a table with one variable per option sets each option from its variable when that is set. */
  lemma {:induction false} OverlayAt(opts: map<Prop, string>, table: seq<(string, Prop)>, env: map<string, string>, prop: Prop)
    requires DistinctProps(table)
    ensures var v := VariableFor(table, prop);
      Find(Overlay(opts, table, env), prop) ==
        if v.Some? && IsSet(env, v.value) then Some(env[v.value]) else Find(opts, prop)
    decreases |table|
  {
    if table != [] {
      var (name, prop0) := table[0];
      var next := if IsSet(env, name) then opts[prop0 := env[name]] else opts;
      assert DistinctProps(table[1..]) by {
        forall i, j | 0 <= i < j < |table| - 1 ensures table[1..][i].1 != table[1..][j].1 {
          assert table[1..][i] == table[i + 1] && table[1..][j] == table[j + 1];
        }
      }
      OverlayAt(next, table[1..], env, prop);
      if prop0 == prop {
        forall i | 0 <= i < |table[1..]| ensures table[1..][i].1 != prop {
          assert table[1..][i] == table[i + 1];
        }
      }
    }
  }

  /** Each table names every option once, by the variable `LegacyName` or `CurrentName` gives. */
  lemma TablesNameEveryOption(p: Prop)
    ensures DistinctProps(LEGACY_ENV) && DistinctProps(CURRENT_ENV)
    ensures VariableFor(LEGACY_ENV, p) == Some(LegacyName(p))
    ensures VariableFor(CURRENT_ENV, p) == Some(CurrentName(p))
  {
    match p
    case AuthEmail =>
    case AuthKey =>
    case AccountId =>
    case ApiToken =>
    case NamespaceId =>
  }

  /**
    The two passes of `initialize` (legacy names, then current names over
    them) leave exactly the options that have a setting: a current variable
    overrides its legacy one, and an unset or empty variable sets nothing.
  */
  lemma OverlayPrecedence(env: map<string, string>)
    ensures Overlay(Overlay(map[], LEGACY_ENV, env), CURRENT_ENV, env) == OptionsOf(env)
  {
    forall p: Prop {
      OverlayPrecedenceAt(env, p);
    }
    FindExtensional(Overlay(Overlay(map[], LEGACY_ENV, env), CURRENT_ENV, env), OptionsOf(env));
  }

  /** `OverlayPrecedence` for one option. */
  lemma OverlayPrecedenceAt(env: map<string, string>, p: Prop)
    ensures Find(Overlay(Overlay(map[], LEGACY_ENV, env), CURRENT_ENV, env), p) == Find(OptionsOf(env), p)
  {
    var legacy := Overlay(map[], LEGACY_ENV, env);
    TablesNameEveryOption(p);
    OverlayAt(map[], LEGACY_ENV, env, p);
    OverlayAt(legacy, CURRENT_ENV, env, p);
  }

  /** `initialize` fails first when a required option has no setting. */
  lemma ConfigureMissingRequired(env: map<string, string>, more: seq<Prop>)
    ensures Configure(env, more) == Err(MissingRequired(ALWAYS_REQUIRED + more)) <==>
      exists k :: k in ALWAYS_REQUIRED + more && Setting(env, k).None?
  {
  }

  /** With every required option set, it fails when neither an auth key nor an API token has a setting. */
  lemma ConfigureMissingAuth(env: map<string, string>, more: seq<Prop>)
    ensures Configure(env, more) == Err(MissingAuth(ONE_OF_IS_REQUIRED)) <==>
      && (forall k :: k in ALWAYS_REQUIRED + more ==> Setting(env, k).Some?)
      && Setting(env, AuthKey).None? && Setting(env, ApiToken).None?
  {
    var opts := OptionsOf(env);
    assert IsSet(opts, AuthKey) <==> Setting(env, AuthKey).Some?;
    assert IsSet(opts, ApiToken) <==> Setting(env, ApiToken).Some?;
    assert ONE_OF_IS_REQUIRED[0] == AuthKey && ONE_OF_IS_REQUIRED[1] == ApiToken;
  }

  /**
    A successful `initialize` returns every option with the value of its
    setting, and sends a bearer header for an API token, else the key and
    e-mail headers when both are set, else no header.
  */
  lemma ConfigureSettings(env: map<string, string>, more: seq<Prop>)
    requires Configure(env, more).Ok?
    ensures forall p :: Find(Configure(env, more).value.opts, p) == Setting(env, p)
    ensures
      var token, key, email := Setting(env, ApiToken), Setting(env, AuthKey), Setting(env, AuthEmail);
      Configure(env, more).value.authHeaders ==
        (if token.Some? then map["Authorization" := "Bearer " + token.value]
         else if key.Some? && email.Some? then map["X-Auth-Key" := key.value, "X-Auth-Email" := email.value]
         else map[])
  {
  }

  /** One pass of `initialize` over a table of variable names, copying each set variable onto its option. */
  method CopySettings(start: map<Prop, string>, table: seq<(string, Prop)>, env: map<string, string>)
    returns (opts: map<Prop, string>)
    ensures opts == Overlay(start, table, env)
  {
    opts := start;
    for i := 0 to |table|
      invariant Overlay(opts, table[i..], env) == Overlay(start, table, env)
    {
      var (name, prop) := table[i];
      if name in env && env[name] != "" {
        opts := opts[prop := env[name]];
      }
      assert table[i..][1..] == table[i + 1..];
    }
  }

  /**
    `initialize`: the legacy `reduce` and the `for ... in` over the current
    names build `opts` field by field; then the two checks; then the headers.
  */
  method Initialize(env: map<string, string>, more: seq<Prop>) returns (r: Result<Settings, ConfigError>)
    ensures r == Configure(env, more)
  {
    var legacy := CopySettings(map[], LEGACY_ENV, env);
    var opts := CopySettings(legacy, CURRENT_ENV, env);
    OverlayPrecedence(env);
    var required := ALWAYS_REQUIRED + more;
    if SomeUnset(opts, required) {
      return Err(MissingRequired(required));
    }
    if NoneSet(opts, ONE_OF_IS_REQUIRED) {
      return Err(MissingAuth(ONE_OF_IS_REQUIRED));
    }
    return Ok(Settings(opts, AuthHeaders(opts)));
  }
}
