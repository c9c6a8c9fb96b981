/** How the settings are assembled: the default YAML, then the environment's YAML
    (whole top-level sections replace each other), then the environment variables,
    expanded from dotted paths and deep-merged on top. Reading the files and the
    process environment is outside the model: the parsed documents and the variables
    are parameters, and so is whether `Settings(**config)` accepts the result. */
module Config {
  import opened Wrappers
  import opened Text
  import opened Json

  /** A YAML mapping / Python dict. */
  type Doc = map<string, Json>

  /** The value under a dotted path, when every step above it is a dict; the empty
      path names the document itself. */
  function Lookup(d: Doc, path: seq<string>): (r: Option<Json>)
    ensures |path| > 0 && r.Some? ==> path[0] in d
    decreases |path|
  {
    if |path| == 0 then Some(JObj(d))
    else if path[0] !in d then None
    else if |path| == 1 then Some(d[path[0]])
    else if d[path[0]].JObj? then Lookup(d[path[0]].fields, path[1..])
    else None
  }

  /** Writes `v` at a dotted path, creating the dicts on the way: a step that is
      already a dict is reused, a missing one starts empty. */
  function SetPath(d: Doc, path: seq<string>, v: Json): (r: Doc)
    requires |path| > 0
    ensures r.Keys == d.Keys + {path[0]}
    ensures forall k :: k in d && k != path[0] ==> r[k] == d[k]
    ensures Lookup(r, path) == Some(v)
    decreases |path|
  {
    if |path| == 1 then d[path[0] := v]
    else
      var child := if path[0] in d && d[path[0]].JObj? then d[path[0]].fields else map[];
      d[path[0] := JObj(SetPath(child, path[1..], v))]
  }

  /** `a` is `b` or starts it. */
  predicate PrefixOf(a: seq<string>, b: seq<string>) {
    |a| <= |b| && b[..|a|] == a
  }

  /** Two paths with the same first step: one starts the other exactly when their
      tails do. */
  lemma PrefixTail(a: seq<string>, b: seq<string>)
    requires |a| > 0 && |b| > 0 && a[0] == b[0]
    ensures PrefixOf(a, b) <==> PrefixOf(a[1..], b[1..])
  {
    if |a| <= |b| {
      assert b[..|a|] == [b[0]] + b[1..][..|a| - 1];
    }
  }

  /** Writing one path leaves every path that neither starts nor extends it alone. */
  lemma {:induction false} SetPathFrame(d: Doc, path: seq<string>, v: Json, q: seq<string>)
    requires |path| > 0 && |q| > 0
    requires !PrefixOf(path, q) && !PrefixOf(q, path)
    ensures Lookup(SetPath(d, path, v), q) == Lookup(d, q)
    decreases |path|
  {
    if q[0] != path[0] {
    } else {
      assert |path| > 1 && |q| > 1;
      assert !PrefixOf(path[1..], q[1..]) && !PrefixOf(q[1..], path[1..]) by {
        PrefixTail(path, q);
        PrefixTail(q, path);
      }
      var child := if path[0] in d && d[path[0]].JObj? then d[path[0]].fields else map[];
      SetPathFrame(child, path[1..], v, q[1..]);
      if path[0] in d && d[path[0]].JObj? {
      } else {
        assert Lookup(child, q[1..]).None?;
      }
    }
  }

  /** `deep_merge`: a key whose two sides both hold dicts is merged recursively; any
      other key of the override replaces the base's value; keys only in the base stay. */
  function DeepMerge(base: Doc, over: Doc): (r: Doc)
    ensures r.Keys == base.Keys + over.Keys
    ensures forall k :: k in base && k !in over ==> r[k] == base[k]
    ensures forall k :: k in over && !(k in base && base[k].JObj? && over[k].JObj?) ==> r[k] == over[k]
    ensures forall k :: k in over && k in base && base[k].JObj? && over[k].JObj? ==>
      r[k] == JObj(DeepMerge(base[k].fields, over[k].fields))
    decreases JObj(over)
  {
    map k | k in base.Keys + over.Keys ::
      if k in over then
        if k in base && base[k].JObj? && over[k].JObj? then JObj(DeepMerge(base[k].fields, over[k].fields))
        else over[k]
      else base[k]
  }

  /** Merging an empty override changes nothing. */
  lemma DeepMergeEmpty(base: Doc)
    ensures DeepMerge(base, map[]) == base
  {
  }

  /** Merging a document into itself changes nothing, at any depth. */
  lemma {:induction false} DeepMergeIdempotent(m: Doc)
    ensures DeepMerge(m, m) == m
    decreases JObj(m)
  {
    var r := DeepMerge(m, m);
    forall k | k in m ensures r[k] == m[k] {
      if m[k].JObj? {
        DeepMergeIdempotent(m[k].fields);
      }
    }
  }

  /** A leaf the override sets is what the merged document holds, whatever the base
      held on the way to it. */
  lemma {:induction false} DeepMergeOverrideWins(base: Doc, over: Doc, path: seq<string>, v: Json)
    requires |path| > 0 && Lookup(over, path) == Some(v) && !v.JObj?
    ensures Lookup(DeepMerge(base, over), path) == Some(v)
    decreases |path|
  {
    if |path| > 1 {
      var k := path[0];
      if k in base && base[k].JObj? {
        DeepMergeOverrideWins(base[k].fields, over[k].fields, path[1..], v);
      }
    }
  }

  /** A leaf the override does not reach is kept from the base. */
  lemma {:induction false} DeepMergeBaseSurvives(base: Doc, over: Doc, path: seq<string>)
    requires |path| > 0 && Lookup(base, path).Some?
    requires forall n :: 1 <= n <= |path| ==> Lookup(over, path[..n]).None? || Lookup(over, path[..n]).value.JObj?
    requires Lookup(over, path).None?
    ensures Lookup(DeepMerge(base, over), path) == Lookup(base, path)
    decreases |path|
  {
    var k := path[0];
    assert path[..1] == [k];
    if k in over {
      assert Lookup(over, path[..1]) == Some(over[k]);
      assert |path| > 1;
      forall n | 1 <= n <= |path[1..]|
        ensures Lookup(over[k].fields, path[1..][..n]).None? || Lookup(over[k].fields, path[1..][..n]).value.JObj?
      {
        assert path[..n + 1][0] == k && path[..n + 1][1..] == path[1..][..n];
        assert Lookup(over, path[..n + 1]) == Lookup(over[k].fields, path[1..][..n]);
      }
      DeepMergeBaseSurvives(base[k].fields, over[k].fields, path[1..]);
    }
  }

  const SecretKeyPath: seq<string> := ["security", "secret_key"]

  /** The variables that override settings, each with the dotted path it sets, in the
      order they are applied. */
  const EnvMappings: seq<(string, seq<string>)> := [
    ("DATABASE_URL", ["database", "url"]),
    ("SECRET_KEY", SecretKeyPath),
    ("ACCESS_TOKEN_EXPIRE_MINUTES", ["security", "access_token_expire_minutes"]),
    ("GOOGLE_SERVICE_ACCOUNT_KEY", ["google", "service_account_key_path"]),
    ("GOOGLE_CLOUD_PROJECT_ID", ["google", "project_id"]),
    ("GOOGLE_DRIVE_LANDING_ZONE", ["google", "drive_landing_zone_id"]),
    ("DROPBOX_APP_KEY", ["integrations", "dropbox", "app_key"]),
    ("DROPBOX_APP_SECRET", ["integrations", "dropbox", "app_secret"]),
    ("ONEDRIVE_CLIENT_ID", ["integrations", "onedrive", "client_id"]),
    ("ONEDRIVE_CLIENT_SECRET", ["integrations", "onedrive", "client_secret"]),
    ("NOTEBOOKLM_PROJECT_ID", ["integrations", "notebooklm", "project_id"]),
    ("SMTP_HOST", ["email", "smtp_host"]),
    ("SMTP_PORT", ["email", "smtp_port"]),
    ("SMTP_USER", ["email", "smtp_user"]),
    ("SMTP_PASSWORD", ["email", "smtp_password"]),
    ("API_HOST", ["api", "host"]),
    ("API_PORT", ["api", "port"])
  ]

  /** Every path of the table has two steps, or three under `integrations`. */
  lemma MappingShapes()
    ensures forall i :: 0 <= i < |EnvMappings| ==> 2 <= |EnvMappings[i].1| <= 3
  {
  }

  /** A table of variables and paths in which no path starts another. */
  predicate PrefixFree(table: seq<(string, seq<string>)>) {
    && (forall i :: 0 <= i < |table| ==> |table[i].1| > 0)
    && (forall i, j :: 0 <= i < |table| && 0 <= j < |table| && i != j ==>
          !PrefixOf(table[i].1, table[j].1))
  }

  /** A variable counts when it is set to a non-empty value. */
  predicate IsSet(env: map<string, string>, name: string) {
    name in env && env[name] != ""
  }

  /** The overrides from the first `n` rows of a table, starting from an empty dict. */
  function Overrides(env: map<string, string>, table: seq<(string, seq<string>)>, n: nat): (r: Doc)
    requires n <= |table| && forall i :: 0 <= i < |table| ==> |table[i].1| > 0
  {
    if n == 0 then map[]
    else
      var acc := Overrides(env, table, n - 1);
      var row := table[n - 1];
      if IsSet(env, row.0) then SetPath(acc, row.1, JStr(env[row.0])) else acc
  }

  /** In a prefix-free table, each row's path holds the value of its variable when
      that is set, and nothing when it is not. */
  lemma {:induction false} OverridesSpec(env: map<string, string>, table: seq<(string, seq<string>)>, n: nat, i: nat)
    requires PrefixFree(table) && n <= |table| && i < |table|
    ensures var got := Lookup(Overrides(env, table, n), table[i].1);
      && (i < n && IsSet(env, table[i].0) ==> got == Some(JStr(env[table[i].0])))
      && (i < n && !IsSet(env, table[i].0) && (forall j :: 0 <= j < n && j != i ==> table[j].0 != table[i].0) ==> got.None?)
      && (n <= i ==> got.None?)
    decreases n
  {
    if n > 0 {
      OverridesSpec(env, table, n - 1, i);
      var acc := Overrides(env, table, n - 1);
      var row := table[n - 1];
      if IsSet(env, row.0) && n - 1 != i {
        SetPathFrame(acc, row.1, JStr(env[row.0]), table[i].1);
      }
    } else {
      assert Overrides(env, table, 0) == map[];
    }
  }

  /** Paths of two or three steps that differ in a step both have: neither starts
      the other. */
  lemma DifferentSteps(p: seq<string>, q: seq<string>)
    requires 2 <= |p| <= 3 && 2 <= |q| <= 3
    requires p[0] != q[0] || p[1] != q[1] || (|p| == 3 && |q| == 3 && p[2] != q[2])
    ensures !PrefixOf(p, q) && !PrefixOf(q, p)
  {
    if |p| <= |q| {
      var w := q[..|p|];
      assert w[0] == q[0] && w[1] == q[1];
      if |p| == 3 { assert w[2] == q[2]; }
    }
    if |q| <= |p| {
      var w := p[..|q|];
      assert w[0] == p[0] && w[1] == p[1];
      if |q| == 3 { assert w[2] == p[2]; }
    }
  }

  /** No path of the table starts another (`integrations.dropbox` is never a leaf,
      for instance), so expanding the variables never overwrites an earlier one. */
  lemma MappingsPrefixFree()
    ensures PrefixFree(EnvMappings)
  {
    forall i, j | 0 <= i < |EnvMappings| && 0 <= j < |EnvMappings| && i != j
      ensures !PrefixOf(EnvMappings[i].1, EnvMappings[j].1)
    {
      MappingShapes();
      DifferentSteps(EnvMappings[i].1, EnvMappings[j].1);
    }
  }

  /** The variable names are distinct. */
  lemma MappingNamesDistinct()
    ensures forall i, j :: 0 <= i < |EnvMappings| && 0 <= j < |EnvMappings| && i != j ==>
      EnvMappings[i].0 != EnvMappings[j].0
  {
  }

  /** The env-override dict built from the process environment. */
  function EnvOverrides(env: map<string, string>): (r: Doc)
    ensures forall i :: 0 <= i < |EnvMappings| ==>
      Lookup(r, EnvMappings[i].1) == (if IsSet(env, EnvMappings[i].0) then Some(JStr(env[EnvMappings[i].0])) else None)
    ensures (forall i :: 0 <= i < |EnvMappings| ==> !IsSet(env, EnvMappings[i].0)) ==> r == map[]
  {
    MappingsPrefixFree();
    MappingNamesDistinct();
    var r := Overrides(env, EnvMappings, |EnvMappings|);
    forall i | 0 <= i < |EnvMappings|
      ensures Lookup(r, EnvMappings[i].1) == (if IsSet(env, EnvMappings[i].0) then Some(JStr(env[EnvMappings[i].0])) else None)
    {
      OverridesSpec(env, EnvMappings, |EnvMappings|, i);
    }
    NoneSetNoOverrides(env, EnvMappings, |EnvMappings|);
    r
  }

  /** With no variable set, no override is built. */
  lemma {:induction false} NoneSetNoOverrides(env: map<string, string>, table: seq<(string, seq<string>)>, n: nat)
    requires n <= |table| && forall i :: 0 <= i < |table| ==> |table[i].1| > 0
    ensures (forall i :: 0 <= i < n ==> !IsSet(env, table[i].0)) ==> Overrides(env, table, n) == map[]
    decreases n
  {
    if n > 0 {
      NoneSetNoOverrides(env, table, n - 1);
    }
  }

  /** The default YAML, then the environment's YAML, each applied with `dict.update`
      when it is a non-empty mapping; a missing or unreadable file reads as `{}`. */
  function BaseConfig(defaults: Option<Doc>, envYaml: Option<Doc>): (r: Doc)
    ensures envYaml.Some? ==> forall k :: k in envYaml.value ==> k in r && r[k] == envYaml.value[k]
    ensures defaults.Some? ==> forall k :: k in defaults.value && (envYaml.None? || k !in envYaml.value) ==>
      k in r && r[k] == defaults.value[k]
    ensures forall k :: k in r ==> (envYaml.Some? && k in envYaml.value) || (defaults.Some? && k in defaults.value)
  {
    var first := map[];
    var second := if defaults.Some? then first + defaults.value else first;
    if envYaml.Some? then second + envYaml.value else second
  }

  /** Top-level sections replace each other whole: a setting only the default YAML
      gives is lost when the environment's YAML has the same section, where the
      env-variable merge would have kept it. */
  lemma SectionsReplaceWhole()
    ensures var defaults := map["api" := JObj(map["host" := JStr("0.0.0.0"), "port" := JInt(8000)])];
      var envYaml := map["api" := JObj(map["port" := JInt(9000)])];
      && Lookup(BaseConfig(Some(defaults), Some(envYaml)), ["api", "host"]).None?
      && Lookup(DeepMerge(defaults, envYaml), ["api", "host"]) == Some(JStr("0.0.0.0"))
  {
    var defaults := map["api" := JObj(map["host" := JStr("0.0.0.0"), "port" := JInt(8000)])];
    var envYaml := map["api" := JObj(map["port" := JInt(9000)])];
    var merged := DeepMerge(defaults, envYaml);
    assert merged["api"] == JObj(DeepMerge(defaults["api"].fields, envYaml["api"].fields));
    assert "host" in DeepMerge(defaults["api"].fields, envYaml["api"].fields);
  }

  /** Python's `key in value`: dict keys, list members, substrings of a string; any
      other value raises (`None`). */
  function In(key: string, j: Json): (r: Option<bool>)
    ensures r.None? <==> !(j.JObj? || j.JList? || j.JStr?)
    ensures j.JObj? ==> r == Some(key in j.fields)
  {
    match j
    case JObj(fields) => Some(key in fields)
    case JList(items) => Some(JStr(key) in items)
    case JStr(s) => Some(Contains(s, key))
    case _ => None
  }

  const IntegrationNames: seq<string> := ["dropbox", "onedrive", "notebooklm"]

  /** Adds an empty dict under each name the value does not already contain; assigning
      into a value that is no dict raises, and so does testing one that is no container. */
  function AddMissing(j: Json, names: seq<string>): (r: Option<Json>)
    ensures j.JObj? ==>
      && r.Some? && r.value.JObj?
      && r.value.fields.Keys == j.fields.Keys + (set k | 0 <= k < |names| :: names[k])
      && (forall k :: k in j.fields ==> r.value.fields[k] == j.fields[k])
      && (forall k :: k in r.value.fields && k !in j.fields ==> r.value.fields[k] == JObj(map[]))
    ensures |names| > 0 && In(names[0], j).None? ==> r.None?
    ensures r.Some? ==> forall k :: 0 <= k < |names| ==> In(names[k], r.value) == Some(true)
    ensures !j.JObj? && r.Some? ==> r.value == j
    decreases |names|
  {
    if |names| == 0 then Some(j)
    else
      match In(names[0], j)
      case None => None
      case Some(present) =>
        if present then AddMissing(j, names[1..])
        else if j.JObj? then AddMissing(JObj(j.fields[names[0] := JObj(map[])]), names[1..])
        else None
  }

  /** After the merge `integrations` and its three sections are made to exist. */
  function EnsureIntegrations(c: Doc): (r: Option<Doc>)
    ensures r.Some? ==>
      && r.value.Keys == c.Keys + {"integrations"}
      && (forall k :: k in c && k != "integrations" ==> r.value[k] == c[k])
      && (forall k :: 0 <= k < |IntegrationNames| ==> In(IntegrationNames[k], r.value["integrations"]) == Some(true))
    ensures ("integrations" !in c || c["integrations"].JObj?) ==> r.Some? && r.value["integrations"].JObj?
    ensures "integrations" in c && c["integrations"].JObj? ==>
      && r.Some? && r.value["integrations"].JObj?
      && forall k :: k in c["integrations"].fields ==>
           k in r.value["integrations"].fields && r.value["integrations"].fields[k] == c["integrations"].fields[k]
    ensures "integrations" in c && !(c["integrations"].JObj? || c["integrations"].JList? || c["integrations"].JStr?) ==>
      r.None?
  {
    var c1 := if "integrations" !in c then c["integrations" := JObj(map[])] else c;
    match AddMissing(c1["integrations"], IntegrationNames)
    case None => None
    case Some(i) => Some(c1["integrations" := i])
  }

  /** The merged document: the two YAML files, then the variable overrides deep-merged
      on top when there are any. */
  function Merged(defaults: Option<Doc>, envYaml: Option<Doc>, env: map<string, string>): (r: Doc)
    ensures forall i :: 0 <= i < |EnvMappings| && IsSet(env, EnvMappings[i].0) ==>
      Lookup(r, EnvMappings[i].1) == Some(JStr(env[EnvMappings[i].0]))
    ensures (forall i :: 0 <= i < |EnvMappings| ==> !IsSet(env, EnvMappings[i].0)) ==> r == BaseConfig(defaults, envYaml)
  {
    var base := BaseConfig(defaults, envYaml);
    var over := EnvOverrides(env);
    if over == map[] then base
    else
      var r := DeepMerge(base, over);
      forall i | 0 <= i < |EnvMappings| && IsSet(env, EnvMappings[i].0)
        ensures Lookup(r, EnvMappings[i].1) == Some(JStr(env[EnvMappings[i].0]))
      {
        DeepMergeOverrideWins(base, over, EnvMappings[i].1, JStr(env[EnvMappings[i].0]));
      }
      r
  }

  /** Making the integration sections exist keeps every leaf of the merged document. */
  lemma EnsureIntegrationsKeeps(c: Doc, path: seq<string>)
    requires |path| > 1 && Lookup(c, path).Some? && EnsureIntegrations(c).Some?
    ensures Lookup(EnsureIntegrations(c).value, path) == Lookup(c, path)
  {
    var r := EnsureIntegrations(c).value;
    if path[0] == "integrations" {
      assert r["integrations"].fields[path[1]] == c["integrations"].fields[path[1]];
    }
  }

  /** The merged document with its integration sections ensured; `None` when that
      raises (the merged `integrations` is a scalar, or a list or string missing a
      name). */
  function Assembled(defaults: Option<Doc>, envYaml: Option<Doc>, env: map<string, string>): (r: Option<Doc>)
    ensures r.Some? ==>
      && "integrations" in r.value
      && (forall k :: 0 <= k < |IntegrationNames| ==> In(IntegrationNames[k], r.value["integrations"]) == Some(true))
    ensures var m := Merged(defaults, envYaml, env);
      ("integrations" !in m || m["integrations"].JObj?) ==> r.Some?
  {
    EnsureIntegrations(Merged(defaults, envYaml, env))
  }

  /** What `create_settings` returns: settings built from the merged document, or the
      all-default settings when building them fails. */
  datatype Settings = FromConfig(config: Doc) | Defaults

  /** `create_settings`: `None` when ensuring the integration sections raises; the
      all-default settings exactly when `Settings(**config)` refuses the document. */
  function CreateSettings(defaults: Option<Doc>, envYaml: Option<Doc>, env: map<string, string>,
                          accepts: Doc -> bool): (r: Option<Settings>)
    ensures r.Some? <==> Assembled(defaults, envYaml, env).Some?
    ensures r.Some? ==>
      && (r.value.FromConfig? <==> accepts(Assembled(defaults, envYaml, env).value))
      && (r.value.FromConfig? ==> r.value.config == Assembled(defaults, envYaml, env).value)
  {
    match Assembled(defaults, envYaml, env)
    case None => None
    case Some(c) => Some(if accepts(c) then FromConfig(c) else Defaults)
  }

  const FallbackSecret := "dev-secret-key-change-in-production"

  /** `settings.secret_key`: the configured `security.secret_key` when it is a non-empty
      string, otherwise the development fallback. (A non-string value there makes
      the settings fail to build, so it only reaches this function in `Defaults`.) */
  function SecretKey(s: Settings): (r: string)
    ensures r != ""
    ensures (s.FromConfig? && Lookup(s.config, SecretKeyPath) == Some(JStr(r))) || r == FallbackSecret
    ensures s.FromConfig? ==> forall k :: Lookup(s.config, SecretKeyPath) == Some(JStr(k)) && k != "" ==> r == k
  {
    match s
    case Defaults => FallbackSecret
    case FromConfig(c) =>
      match Lookup(c, SecretKeyPath)
      case Some(JStr(k)) => if k != "" then k else FallbackSecret
      case _ => FallbackSecret
  }

  /** The row of the table that sets the secret. */
  lemma SecretKeyRow()
    ensures EnvMappings[1].0 == "SECRET_KEY" && EnvMappings[1].1 == SecretKeyPath
  {
  }

  /** Every variable that is set is at its path in settings built from the merged
      document. */
  lemma VariableReachesSettings(defaults: Option<Doc>, envYaml: Option<Doc>, env: map<string, string>,
                                accepts: Doc -> bool, i: nat)
    requires i < |EnvMappings| && IsSet(env, EnvMappings[i].0)
    requires CreateSettings(defaults, envYaml, env, accepts).Some?
    requires CreateSettings(defaults, envYaml, env, accepts).value.FromConfig?
    ensures Lookup(CreateSettings(defaults, envYaml, env, accepts).value.config, EnvMappings[i].1)
      == Some(JStr(env[EnvMappings[i].0]))
  {
    MappingShapes();
    EnsureIntegrationsKeeps(Merged(defaults, envYaml, env), EnvMappings[i].1);
  }

  /** A non-empty `SECRET_KEY` variable is the secret of settings built from the
      merged document. */
  lemma SecretFromEnvironment(defaults: Option<Doc>, envYaml: Option<Doc>, env: map<string, string>, accepts: Doc -> bool)
    requires IsSet(env, "SECRET_KEY")
    requires CreateSettings(defaults, envYaml, env, accepts).Some? && CreateSettings(defaults, envYaml, env, accepts).value.FromConfig?
    ensures SecretKey(CreateSettings(defaults, envYaml, env, accepts).value) == env["SECRET_KEY"]
  {
    SecretKeyRow();
    VariableReachesSettings(defaults, envYaml, env, accepts, 1);
  }
}
