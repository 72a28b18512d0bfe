/** The runtime Deployment: what the mutate closure writes over an existing object. */
module Materialize {
  import opened Lists
  import opened Api
  import opened Cluster
  import V = Validation
  import R = Resolution
  import opened PodAssembly
  import opened ResourceVersion

  datatype Probe = NoProbe | GivenProbe(text: string) | ConfigProbe(port: int)

  datatype Container = Container(
    name: string,
    image: string,
    env: seq<EnvVar>,
    resources: string,
    port: int,
    probe: Probe,
    mounts: seq<Mount>,
    sandboxed: bool)

  datatype Strategy = DefaultStrategy | Recreate

  /** The fields the Operator owns. */
  datatype Managed = Managed(
    labels: map<string, string>,
    replicas: int,
    selector: map<string, string>,
    templateLabels: map<string, string>,
    strategy: Strategy,
    initContainers: seq<Container>,
    volumes: seq<Volume>,
    fsGroup: Option<int>,
    containers: seq<Container>,
    serviceAccountName: string,
    runtimeClassName: Option<string>)

  /** Everything one materialization reads: the Agent, the Registry address and the resolved Secrets. */
  datatype Inputs = Inputs(
    ns: string,
    name: string,
    registryURL: string,
    spec: AgentSpec,
    credentials: seq<R.MountedCredential>,
    gitSecret: string,
    modelSecret: string)

  const WorkspaceFSGroup := 10001

  function Labels(name: string): map<string, string> {
    map["app.kubernetes.io/name" := "agent-runtime", "app.kubernetes.io/instance" := name,
        "app.kubernetes.io/managed-by" := "agent-plane"]
  }

  // --- environment ---

  const GitCredentialFile := V.GitMountPath + "/token"

  function HomeEnv(mount: string): seq<EnvVar> {
    var home := mount + "/.agent-home";
    [EnvVar("AGENTPLANE_WORKSPACE", mount), EnvVar("AGENTPLANE_AGENT_HOME", home), EnvVar("HOME", home),
     EnvVar("XDG_CONFIG_HOME", home + "/.config"), EnvVar("XDG_DATA_HOME", home + "/share"),
     EnvVar("XDG_STATE_HOME", home + "/state"), EnvVar("XDG_CACHE_HOME", home + "/cache")]
  }

  /** Pair numbers are fixed, so the count is right only when pair 0 is present whenever pair 1 is. */
  function GitCount(repository: string, gitSecret: string): nat {
    if gitSecret != "" then 2 else if repository != "" then 1 else 0
  }

  function GitCountEnv(repository: string, gitSecret: string): seq<EnvVar> {
    var n := GitCount(repository, gitSecret);
    if n > 0 then [EnvVar("GIT_CONFIG_COUNT", Render(n))] else []
  }

  function GitFileEnv(gitSecret: string): seq<EnvVar> {
    if gitSecret != "" then [EnvVar("AGENTPLANE_GIT_CREDENTIAL_FILE", GitCredentialFile)] else []
  }

  function SafeDirectory(mount: string): seq<EnvVar> {
    [EnvVar("GIT_CONFIG_KEY_0", "safe.directory"), EnvVar("GIT_CONFIG_VALUE_0", mount)]
  }

  /** Stands for the helper's shell text, which nothing here reads. */
  const GitCredentialHelper := "credential helper"

  const CredentialHelper := [EnvVar("GIT_CONFIG_KEY_1", "credential.helper"), EnvVar("GIT_CONFIG_VALUE_1", GitCredentialHelper)]

  function GitPairEnv(repository: string, mount: string, gitSecret: string): seq<EnvVar> {
    (if repository != "" then SafeDirectory(mount) else []) + (if gitSecret != "" then CredentialHelper else [])
  }

  function WorkspaceEnv(ws: WorkspaceSpec, gitSecret: string): seq<EnvVar> {
    var mount := V.WorkspacePath(ws);
    HomeEnv(mount) + GitCountEnv(ws.repository, gitSecret) + GitFileEnv(gitSecret) + GitPairEnv(ws.repository, mount, gitSecret)
  }

  function BaseEnv(x: Inputs): seq<EnvVar>
    requires x.spec.runtime.Some?
  {
    [EnvVar("AGENTPLANE_REGISTRY", x.registryURL), EnvVar("AGENTPLANE_AGENT_NAMESPACE", x.ns),
     EnvVar("AGENTPLANE_AGENT_NAME", x.name)] + x.spec.runtime.value.env
  }

  // --- the materialized state ---

  function CloneContainer(ws: WorkspaceSpec, hasCredential: bool): Container {
    var mount := V.WorkspacePath(ws);
    Container(
      "clone", "alpine/git:latest",
      (if ws.repository != "" then [EnvVar("AGENTPLANE_REPOSITORY", ws.repository)] else [])
      + [EnvVar("AGENTPLANE_WORKSPACE", mount)]
      + (if ws.branch != "" then [EnvVar("AGENTPLANE_BRANCH", ws.branch)] else [])
      + (if hasCredential then [EnvVar("AGENTPLANE_GIT_CREDENTIAL_FILE", GitCredentialFile)] else []),
      "", 0, NoProbe, CloneMounts(ws, hasCredential), false)
  }

  function Volumes(x: Inputs): seq<Volume>
    requires x.spec.runtime.Some?
  {
    (if x.spec.workspace.Some? then WorkspaceVolumes(x.name, x.gitSecret, x.modelSecret) else [])
    + Each(Known(x.spec.runtime.value.volumes), UserVolume)
    + Each(Backed(x.credentials), CredentialVolume)
  }

  function Mounts(x: Inputs): seq<Mount>
    requires x.spec.runtime.Some?
  {
    (if x.spec.workspace.Some? then WorkspaceMounts(x.spec.workspace.value, x.gitSecret, x.modelSecret) else [])
    + Each(Known(x.spec.runtime.value.volumes), UserMount)
    + Each(Backed(x.credentials), CredentialMount)
  }

  function Env(x: Inputs): seq<EnvVar>
    requires x.spec.runtime.Some?
  {
    BaseEnv(x) + (if x.spec.workspace.Some? then WorkspaceEnv(x.spec.workspace.value, x.gitSecret) else [])
    + (if Backed(x.credentials) != [] then [EnvVar(V.CredentialsPathEnv, V.CredentialsDir)] else [])
  }

  function Sandboxed(x: Inputs): bool
    requires x.spec.runtime.Some?
  {
    x.spec.workspace.Some? || Known(x.spec.runtime.value.volumes) != [] || Backed(x.credentials) != []
  }

  /** An explicit probe wins; a workspace runtime with a port gets the default one. */
  function ProbeOf(rt: RuntimeSpec, hasWorkspace: bool): Probe {
    if rt.readinessProbe.Some? then GivenProbe(rt.readinessProbe.value)
    else if hasWorkspace && rt.port != 0 then ConfigProbe(rt.port)
    else NoProbe
  }

  function RuntimeContainer(x: Inputs): Container
    requires x.spec.runtime.Some?
  {
    var rt := x.spec.runtime.value;
    Container("runtime", rt.image, Env(x), rt.resources, rt.port, ProbeOf(rt, x.spec.workspace.Some?), Mounts(x), Sandboxed(x))
  }

  function Materialized(x: Inputs): Managed
    requires x.spec.runtime.Some?
  {
    var rt, ws := x.spec.runtime.value, x.spec.workspace;
    Managed(
      Labels(x.name),
      if ws.Some? then 1 else rt.replicas,
      Labels(x.name),
      Labels(x.name),
      if ws.Some? then Recreate else DefaultStrategy,
      if ws.Some? then [CloneContainer(ws.value, x.gitSecret != "")] else [],
      Volumes(x),
      if ws.Some? then Some(WorkspaceFSGroup) else None,
      [RuntimeContainer(x)],
      rt.serviceAccountName,
      if rt.runtimeClassName != "" then Some(rt.runtimeClassName) else None)
  }

  // --- the three parts of the closure, as changes of the managed fields ---

  function Labelled(m: Managed, name: string): Managed {
    m.(labels := Labels(name), selector := Labels(name), templateLabels := Labels(name))
  }

  function Placed(m: Managed, rt: RuntimeSpec): Managed {
    m.(serviceAccountName := rt.serviceAccountName,
       runtimeClassName := if rt.runtimeClassName != "" then Some(rt.runtimeClassName) else None)
  }

  function Podded(m: Managed, x: Inputs): Managed
    requires x.spec.runtime.Some?
  {
    var ws := x.spec.workspace;
    m.(replicas := if ws.Some? then 1 else m.replicas,
       strategy := if ws.Some? then Recreate else DefaultStrategy,
       initContainers := if ws.Some? then [CloneContainer(ws.value, x.gitSecret != "")] else [],
       fsGroup := if ws.Some? then Some(WorkspaceFSGroup) else None,
       volumes := Volumes(x),
       containers := [RuntimeContainer(x)])
  }

  /** Together they set every managed field, so nothing of what was there is left. */
  lemma PartsCoverAll(m: Managed, x: Inputs)
    requires x.spec.runtime.Some?
    ensures var rt := x.spec.runtime.value;
      Placed(Podded(Labelled(m.(replicas := rt.replicas), x.name), x), rt) == Materialized(x)
  {
  }

  // --- building it ---

  method WorkspacePod(agent: string, ws: WorkspaceSpec, gitSecret: string, modelSecret: string)
      returns (volumes: seq<Volume>, mounts: seq<Mount>, env: seq<EnvVar>)
    ensures volumes == WorkspaceVolumes(agent, gitSecret, modelSecret)
    ensures mounts == WorkspaceMounts(ws, gitSecret, modelSecret)
    ensures env == WorkspaceEnv(ws, gitSecret)
  {
    var mount := V.WorkspacePath(ws);
    var gitConfigCount := 0;
    var gitConfigEnv: seq<EnvVar> := [];
    if ws.repository != "" {
      gitConfigCount, gitConfigEnv := 1, SafeDirectory(mount);
    }
    volumes := [Volume("workspace", Claim(agent + "-workspace", false)), Volume("tmp", Scratch("", ""))];
    mounts := [Mount("workspace", mount, false), Mount("tmp", V.TmpMountPath, false)];
    if gitSecret != "" {
      gitConfigCount, gitConfigEnv := 2, gitConfigEnv + CredentialHelper;
      volumes := volumes + [Volume("git-credential", SecretFiles(gitSecret, None))];
      mounts := mounts + [Mount("git-credential", V.GitMountPath, true)];
    }
    if modelSecret != "" {
      volumes := volumes + [Volume("model-credential", SecretFiles(modelSecret, None))];
      mounts := mounts + [Mount("model-credential", V.ModelMountPath, true)];
    }
    env := HomeEnv(mount);
    if gitConfigCount > 0 {
      env := env + [EnvVar("GIT_CONFIG_COUNT", Render(gitConfigCount))];
    }
    if gitSecret != "" {
      env := env + [EnvVar("AGENTPLANE_GIT_CREDENTIAL_FILE", GitCredentialFile)];
    }
    env := env + gitConfigEnv;
  }

  class Deployment {
    var labels: map<string, string>
    var replicas: int
    var selector: map<string, string>
    var templateLabels: map<string, string>
    var strategy: Strategy
    var initContainers: seq<Container>
    var volumes: seq<Volume>
    var fsGroup: Option<int>
    var containers: seq<Container>
    var serviceAccountName: string
    var runtimeClassName: Option<string>
    var annotations: map<string, string>

    ghost function View(): Managed
      reads this
    {
      Managed(labels, replicas, selector, templateLabels, strategy, initContainers, volumes, fsGroup,
              containers, serviceAccountName, runtimeClassName)
    }

    constructor ()
      ensures annotations == map[]
    {
      labels, replicas, selector, templateLabels := map[], 0, map[], map[];
      strategy, initContainers, volumes, fsGroup := DefaultStrategy, [], [], None;
      containers, serviceAccountName, runtimeClassName, annotations := [], "", None, map[];
    }

    /** The part of the closure that a workspace decides, cleared again when there is none. */
    method ApplyWorkspace(x: Inputs) returns (mounts: seq<Mount>, env: seq<EnvVar>)
      requires x.spec.runtime.Some?
      modifies this`replicas, this`strategy, this`initContainers, this`volumes, this`fsGroup
      ensures var ws := x.spec.workspace;
        && replicas == (if ws.Some? then 1 else old(replicas))
        && strategy == (if ws.Some? then Recreate else DefaultStrategy)
        && initContainers == (if ws.Some? then [CloneContainer(ws.value, x.gitSecret != "")] else [])
        && volumes == (if ws.Some? then WorkspaceVolumes(x.name, x.gitSecret, x.modelSecret) else [])
        && fsGroup == (if ws.Some? then Some(WorkspaceFSGroup) else None)
        && mounts == (if ws.Some? then WorkspaceMounts(ws.value, x.gitSecret, x.modelSecret) else [])
        && env == (if ws.Some? then WorkspaceEnv(ws.value, x.gitSecret) else [])
    {
      var ws := x.spec.workspace;
      if ws.None? {
        strategy, initContainers, volumes, fsGroup := DefaultStrategy, [], [], None;
        mounts, env := [], [];
      } else {
        volumes, mounts, env := WorkspacePod(x.name, ws.value, x.gitSecret, x.modelSecret);
        replicas, strategy := 1, Recreate;
        initContainers := [CloneContainer(ws.value, x.gitSecret != "")];
        fsGroup := Some(WorkspaceFSGroup);
      }
    }

    /** The Agent's own volumes and Credentials, appended after the Operator's. */
    method AppendOwn(x: Inputs, mounts: seq<Mount>, env: seq<EnvVar>)
        returns (allMounts: seq<Mount>, allEnv: seq<EnvVar>, sandboxed: bool)
      requires x.spec.runtime.Some?
      requires var ws := x.spec.workspace;
        && volumes == (if ws.Some? then WorkspaceVolumes(x.name, x.gitSecret, x.modelSecret) else [])
        && mounts == (if ws.Some? then WorkspaceMounts(ws.value, x.gitSecret, x.modelSecret) else [])
        && env == BaseEnv(x) + (if ws.Some? then WorkspaceEnv(ws.value, x.gitSecret) else [])
      modifies this`volumes
      ensures volumes == Volumes(x) && allMounts == Mounts(x) && allEnv == Env(x) && sandboxed == Sandboxed(x)
    {
      allMounts, allEnv, sandboxed := mounts, env, x.spec.workspace.Some?;
      var vols, ms := UserVolumes(x.spec.runtime.value.volumes);
      if |vols| > 0 {
        volumes, allMounts, sandboxed := volumes + vols, allMounts + ms, true;
      }
      assert volumes == old(volumes) + vols && allMounts == mounts + ms;
      vols, ms := CredentialVolumes(x.credentials);
      if |vols| > 0 {
        volumes, allMounts, sandboxed := volumes + vols, allMounts + ms, true;
        allEnv := allEnv + [EnvVar(V.CredentialsPathEnv, V.CredentialsDir)];
      }
    }

    /** Volumes and container together, so that every mount they share comes from one place. */
    method ApplyPod(x: Inputs)
      requires x.spec.runtime.Some?
      modifies this`replicas, this`strategy, this`initContainers, this`volumes, this`fsGroup, this`containers
      ensures View() == Podded(old(View()), x)
    {
      var rt := x.spec.runtime.value;
      var mounts, env := ApplyWorkspace(x);
      var sandboxed;
      mounts, env, sandboxed := AppendOwn(x, mounts, BaseEnv(x) + env);
      containers := [Container(
        "runtime", rt.image, env, rt.resources, rt.port, ProbeOf(rt, x.spec.workspace.Some?), mounts, sandboxed)];
    }

    method ApplyPlacement(rt: RuntimeSpec)
      modifies this`serviceAccountName, this`runtimeClassName
      ensures View() == Placed(old(View()), rt)
    {
      serviceAccountName := rt.serviceAccountName;
      runtimeClassName := None;
      if rt.runtimeClassName != "" {
        runtimeClassName := Some(rt.runtimeClassName);
      }
    }

    method ApplyLabels(name: string)
      modifies this`labels, this`selector, this`templateLabels
      ensures View() == Labelled(old(View()), name)
    {
      labels, selector, templateLabels := Labels(name), Labels(name), Labels(name);
    }

    /** The mutate closure: overwrites every managed field whatever was there, and nothing else. */
    method Mutate(x: Inputs)
      requires x.spec.runtime.Some?
      modifies this
      ensures View() == Materialized(x)
      ensures annotations == old(annotations)
    {
      ghost var before := View();
      replicas := x.spec.runtime.value.replicas;
      ApplyLabels(x.name);
      ApplyPod(x);
      ApplyPlacement(x.spec.runtime.value);
      PartsCoverAll(before, x);
    }
  }

  /** History independence: after any sequence of materializations over any starting object, only the last one shows. */
  method MutateAll(dep: Deployment, history: seq<Inputs>)
    requires history != [] && forall i :: 0 <= i < |history| ==> history[i].spec.runtime.Some?
    modifies dep
    ensures dep.View() == Materialized(history[|history| - 1])
    ensures dep.annotations == old(dep.annotations)
  {
    for i := 0 to |history|
      invariant i > 0 ==> dep.View() == Materialized(history[i - 1])
      invariant dep.annotations == old(dep.annotations)
    {
      dep.Mutate(history[i]);
    }
  }

  // --- reconcileRuntime ---

  const DefaultRegistryURL := "http://agent-plane-registry.agent-plane-system.svc:9090"

  predicate WantsGitSecret(spec: AgentSpec) {
    spec.workspace.Some? && spec.workspace.value.repository != "" && spec.workspace.value.credentialRef.Some?
  }

  /** What one reconcile hands to the builder; None while the git credential it needs has no Secret yet. */
  function RuntimeInputs(c: Store, a: Key, spec: AgentSpec, registryURL: string, res: R.Result): Option<Inputs> {
    if WantsGitSecret(spec) && res.gitSecret == "" then None
    else
      Some(Inputs(
        a.ns, a.name, if registryURL == "" then DefaultRegistryURL else registryURL, spec, res.credentials,
        if WantsGitSecret(spec) then res.gitSecret else "",
        if spec.workspace.Some? then R.ModelSecret(c, a.ns, R.EffectiveSpec(c, a.ns, spec)) else ""))
  }

  method ReconcileRuntime(c: Store, a: Key, spec: AgentSpec, registryURL: string, res: R.Result, dep: Deployment)
    requires spec.runtime.Some?
    modifies dep
    ensures dep.annotations == old(dep.annotations)
    ensures var x := RuntimeInputs(c, a, spec, registryURL, res);
      dep.View() == if x.Some? then Materialized(x.value) else old(dep.View())
  {
    var ws := spec.workspace;
    var url := registryURL;
    if url == "" {
      url := DefaultRegistryURL;
    }
    var gitSecret := "";
    if ws.Some? && ws.value.repository != "" && ws.value.credentialRef.Some? {
      if res.gitSecret == "" {
        return;
      }
      gitSecret := res.gitSecret;
    }
    var modelSecret := "";
    if ws.Some? {
      modelSecret := ResolveModelSecret(c, a.ns, spec);
    }
    dep.Mutate(Inputs(a.ns, a.name, url, spec, res.credentials, gitSecret, modelSecret));
  }

  /** One reconcile of the Agent: the cluster it read and the spec it found. */
  datatype Round = Round(c: Store, a: Key, spec: AgentSpec, registryURL: string)

  /** What the round builds; None when the spec is invalid, has no runtime, or is held back. */
  function Built(r: Round): (x: Option<Inputs>)
    ensures x.Some? ==> x.value.spec == r.spec && V.ValidSpec(r.spec) && r.spec.runtime.Some?
  {
    if V.ValidSpec(r.spec) && r.spec.runtime.Some?
    then RuntimeInputs(r.c, r.a, r.spec, r.registryURL, R.Resolve(r.c, r.a.ns, r.spec))
    else None
  }

  function LastBuilt(history: seq<Round>): Option<Inputs> {
    LastSome(Each(history, Built))
  }

  /** It is what a round built after which no other built anything. */
  lemma LastBuiltExactly(history: seq<Round>)
    ensures LastBuilt(history).None? <==> forall i :: 0 <= i < |history| ==> Built(history[i]).None?
    ensures LastBuilt(history).Some? ==> exists i: nat ::
              IsLastSome(Each(history, Built), i) && LastBuilt(history) == Built(history[i]) && history[i].spec.runtime.Some?
  {
    var all := Each(history, Built);
    assert forall i :: 0 <= i < |history| ==> all[i] == Built(history[i]);
    if LastBuilt(history).Some? {
      var i: nat :| IsLastSome(all, i) && LastBuilt(history) == all[i];
    }
  }

  /** What a Deployment shows after a build over what it showed before. */
  function Shown(x: Option<Inputs>, before: Managed): Managed {
    if x.Some? && x.value.spec.runtime.Some? then Materialized(x.value) else before
  }

  lemma ShownNext(history: seq<Round>, n: nat, before: Managed)
    requires n < |history|
    ensures Shown(LastBuilt(history[..n + 1]), before) == Shown(Built(history[n]), Shown(LastBuilt(history[..n]), before))
  {
    var all := Each(history[..n + 1], Built);
    assert all[..n] == Each(history[..n], Built) && all[n] == Built(history[n]);
  }

  /** Over any history of reconciles the Deployment shows the last round that built anything, and nothing of the earlier
      ones; rounds that build nothing, a dropped runtime among them, leave it standing. */
  method ReconcileAll(dep: Deployment, history: seq<Round>)
    modifies dep
    ensures dep.annotations == old(dep.annotations)
    ensures dep.View() == Shown(LastBuilt(history), old(dep.View()))
  {
    ghost var before := dep.View();
    for n := 0 to |history|
      invariant dep.annotations == old(dep.annotations)
      invariant dep.View() == Shown(LastBuilt(history[..n]), before)
    {
      ShownNext(history, n, before);
      ReconcileRound(dep, history[n]);
    }
    assert history[..|history|] == history;
  }

  method ReconcileRound(dep: Deployment, r: Round)
    modifies dep
    ensures dep.annotations == old(dep.annotations)
    ensures dep.View() == Shown(Built(r), old(dep.View()))
  {
    var valid := V.Validate(r.spec);
    if valid && r.spec.runtime.Some? {
      ReconcileRuntime(r.c, r.a, r.spec, r.registryURL, R.Resolve(r.c, r.a.ns, r.spec), dep);
    }
  }

  method ResolveModelSecret(c: Store, ns: string, spec: AgentSpec) returns (secret: string)
    ensures secret == R.ModelSecret(c, ns, R.EffectiveSpec(c, ns, spec))
  {
    var class_: Option<AgentClassSpec> := None;
    if spec.agentClassRef.Some? {
      class_ := GetClass(c, ns, spec.agentClassRef.value);
    }
    var eff := R.ApplyClassDefaults(spec, class_);
    if eff.modelRef.None? {
      return "";
    }
    var model := Get(c, Key(ModelKind, ns, eff.modelRef.value));
    if model.None? || model.value.body.credentialRef.None? {
      return "";
    }
    var cred := Get(c, Key(CredentialKind, ns, model.value.body.credentialRef.value));
    if cred.None? {
      return "";
    }
    return cred.value.body.secretName;
  }
}
