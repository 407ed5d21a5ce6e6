/** Resolving a workspace to its environment (engine/context/workspace.py), and redaction
    (engine/context/secrets.py). */
module Workspace {
  import opened Wrappers
  import opened Names

  type Env = map<string, string>

  const REDACTED := "***"

  datatype Spec = Spec(
    allowedSkills: seq<string>,
    allowedWorkflows: seq<string>,
    backend: Option<string>,
    maxRounds: Option<int>)

  /** What the resolver is built from. `users` is None without a user config provider. */
  datatype Config = Config(
    root: string,
    globalEnv: Env,
    workspaceEnv: map<string, Env>,
    users: Option<map<string, map<string, Env>>>,
    secrets: map<string, Env>,
    specs: map<string, Spec>)

  datatype Resolved = Resolved(
    workspace: string,
    cwd: string,
    env: Env,
    sensitive: set<string>,
    spec: Spec)
  {
    function RedactedEnv(): Env {
      Redact(env, sensitive)
    }
  }

  function Redact(env: Env, sensitive: set<string>): Env {
    map k | k in env :: if k in sensitive then REDACTED else env[k]
  }

  function EnvFor(envs: map<string, Env>, k: string): Env {
    if k in envs then envs[k] else map[]
  }

  /** The user layer for this call: empty unless there are a user and a provider. */
  function UserEnv(config: Config, user: Option<string>, workspace: string): Env {
    if user.Some? && config.users.Some? && user.value in config.users.value
    then EnvFor(config.users.value[user.value], workspace)
    else map[]
  }

  function JoinPath(root: string, name: string): string {
    if root == "" || root[|root| - 1] == '/' then root + name else root + "/" + name
  }

  function SpecFor(config: Config, workspace: string): Spec {
    if workspace in config.specs then config.specs[workspace] else Spec([], [], None, None)
  }

  /** `WorkspaceResolver.resolve`; None is InvalidWorkspaceId. */
  function Resolve(config: Config, workspace: string, user: Option<string>): Option<Resolved> {
    if !NameOk(workspace) then None
    else
      var secrets := EnvFor(config.secrets, workspace);
      Some(Resolved(
             workspace,
             JoinPath(config.root, workspace),
             config.globalEnv + EnvFor(config.workspaceEnv, workspace) + UserEnv(config, user, workspace) + secrets,
             secrets.Keys,
             SpecFor(config, workspace)))
  }

  method ResolveWorkspace(config: Config, workspace: string, user: Option<string>) returns (r: Option<Resolved>)
    ensures r == Resolve(config, workspace, user)
  {
    if !NameOk(workspace) {
      return None;
    }
    var baseEnv := config.globalEnv;
    if workspace in config.workspaceEnv {
      baseEnv := baseEnv + config.workspaceEnv[workspace];
    }
    assert baseEnv == config.globalEnv + EnvFor(config.workspaceEnv, workspace);
    if user.Some? && config.users.Some? {
      baseEnv := baseEnv + UserEnv(config, user, workspace);
    }
    assert baseEnv == config.globalEnv + EnvFor(config.workspaceEnv, workspace) + UserEnv(config, user, workspace);
    var secretEnv := EnvFor(config.secrets, workspace);
    var env := baseEnv + secretEnv;
    r := Some(Resolved(workspace, JoinPath(config.root, workspace), env, secretEnv.Keys, SpecFor(config, workspace)));
  }

  function Lookup(env: Env, k: string): Option<string> {
    if k in env then Some(env[k]) else None
  }

  /** The first layer that has the key decides. */
  function FirstOf(layers: seq<Env>, k: string): Option<string> {
    if layers == [] then None
    else if k in layers[0] then Some(layers[0][k])
    else FirstOf(layers[1..], k)
  }

  lemma FirstOfNext(layers: seq<Env>, i: nat, k: string)
    requires i < |layers|
    ensures FirstOf(layers[i..], k) == if k in layers[i] then Some(layers[i][k]) else FirstOf(layers[i + 1..], k)
  {
    assert layers[i..][1..] == layers[i + 1..];
  }

  /** Secrets override the user layer, which overrides the workspace, which overrides the global
      environment. */
  lemma LayerOrder(config: Config, workspace: string, user: Option<string>, k: string)
    requires NameOk(workspace)
    ensures Lookup(Resolve(config, workspace, user).value.env, k) ==
            FirstOf([EnvFor(config.secrets, workspace), UserEnv(config, user, workspace),
                     EnvFor(config.workspaceEnv, workspace), config.globalEnv], k)
  {
    var layers := [EnvFor(config.secrets, workspace), UserEnv(config, user, workspace),
                   EnvFor(config.workspaceEnv, workspace), config.globalEnv];
    FirstOfNext(layers, 0, k);
    FirstOfNext(layers, 1, k);
    FirstOfNext(layers, 2, k);
    FirstOfNext(layers, 3, k);
  }

  /** Two configurations that differ only in the values of secrets. */
  ghost predicate SameButSecretValues(c: Config, d: Config) {
    && c.(secrets := d.secrets) == d
    && forall w :: EnvFor(c.secrets, w).Keys == EnvFor(d.secrets, w).Keys
  }

  /** Two resolutions that agree on everything but the values under sensitive keys. */
  ghost predicate SameButSensitive(a: Resolved, b: Resolved) {
    && a.(env := b.env) == b
    && a.env.Keys == b.env.Keys
    && forall k :: k in a.env && k !in a.sensitive ==> a.env[k] == b.env[k]
  }

  /** Each side carries its own secrets, and elsewhere the two sides agree. */
  lemma SecretsSeparate(c: Config, d: Config, workspace: string, user: Option<string>)
    requires SameButSecretValues(c, d) && NameOk(workspace)
    ensures var a, b := Resolve(c, workspace, user).value, Resolve(d, workspace, user).value;
      && SameButSensitive(a, b)
      && a.sensitive == EnvFor(c.secrets, workspace).Keys
      && (forall k :: k in a.sensitive ==> a.env[k] == EnvFor(c.secrets, workspace)[k] &&
                                           b.env[k] == EnvFor(d.secrets, workspace)[k])
  {
    assert EnvFor(c.secrets, workspace).Keys == EnvFor(d.secrets, workspace).Keys;
  }

  lemma RedactedAlike(a: Resolved, b: Resolved)
    requires SameButSensitive(a, b)
    ensures a.RedactedEnv() == b.RedactedEnv()
  {
    assert a.sensitive == b.sensitive;
  }

  /** Resolutions of such configurations differ only under the sensitive keys, which carry each
      side's own secrets whatever the other layers say, and look the same redacted. */
  lemma ResolveSeparates(c: Config, d: Config, workspace: string, user: Option<string>)
    requires SameButSecretValues(c, d)
    ensures Resolve(c, workspace, user).None? <==> Resolve(d, workspace, user).None?
    ensures Resolve(c, workspace, user).Some? ==>
              var a, b := Resolve(c, workspace, user).value, Resolve(d, workspace, user).value;
              && SameButSensitive(a, b)
              && a.RedactedEnv() == b.RedactedEnv()
              && a.sensitive == EnvFor(c.secrets, workspace).Keys
              && (forall k :: k in a.sensitive ==> a.env[k] == EnvFor(c.secrets, workspace)[k] &&
                                                   b.env[k] == EnvFor(d.secrets, workspace)[k])
  {
    if NameOk(workspace) {
      SecretsSeparate(c, d, workspace, user);
      RedactedAlike(Resolve(c, workspace, user).value, Resolve(d, workspace, user).value);
    }
  }

  /** What a resolution says besides its environment: the workspace itself, a directory for it, the
      keys of its secrets, and its settings, empty if there are none. */
  lemma ResolvedIs(config: Config, workspace: string, user: Option<string>)
    requires NameOk(workspace)
    ensures var r := Resolve(config, workspace, user).value;
      && r.workspace == workspace
      && (forall k :: k in r.sensitive <==> workspace in config.secrets && k in config.secrets[workspace])
      && r.spec == (if workspace in config.specs then config.specs[workspace] else Spec([], [], None, None))
  {
  }

  /** A redacted environment has the keys of the environment, with the mark for its sensitive ones
      and the values of the others. */
  lemma RedactedIs(r: Resolved)
    ensures r.RedactedEnv().Keys == r.env.Keys
    ensures forall k :: k in r.env ==> r.RedactedEnv()[k] == if k in r.sensitive then "***" else r.env[k]
  {
  }

  /** The directory of a workspace is one segment below the root, the workspace's id. */
  lemma DirectoryIs(config: Config, workspace: string, user: Option<string>)
    requires NameOk(workspace)
    ensures '/' !in workspace
    ensures var cwd, root := Resolve(config, workspace, user).value.cwd, config.root;
      if root == "" || root[|root| - 1] == '/' then cwd == root + workspace else cwd == root + "/" + workspace
  {
  }

  /** Different workspaces have different directories, also for different users. */
  lemma DirectoriesApart(config: Config, v: string, user: Option<string>, w: string, other: Option<string>)
    requires NameOk(v) && NameOk(w)
    ensures Resolve(config, v, user).value.cwd == Resolve(config, w, other).value.cwd <==> v == w
  {
    var head := if config.root == "" || config.root[|config.root| - 1] == '/' then config.root else config.root + "/";
    assert Resolve(config, v, user).value.cwd == head + v && Resolve(config, w, other).value.cwd == head + w;
    assert (head + v)[|head|..] == v && (head + w)[|head|..] == w;
  }
}
