/** What a runtime finds in the container built for it, and what the cluster finds around it. */
module RuntimeContract {
  import opened Lists
  import opened Api
  import opened Cluster
  import R = Resolution
  import V = Validation
  import opened PodAssembly
  import opened Materialize
  import G = GitEnvironment

  const RegistryVar := "AGENTPLANE_REGISTRY"
  const NamespaceVar := "AGENTPLANE_AGENT_NAMESPACE"
  const NameVar := "AGENTPLANE_AGENT_NAME"
  const WorkspaceVar := "AGENTPLANE_WORKSPACE"
  const AgentHomeVar := "AGENTPLANE_AGENT_HOME"
  const RepositoryVar := "AGENTPLANE_REPOSITORY"
  const BranchVar := "AGENTPLANE_BRANCH"

  // --- reading one entry ---

  /** An entry that no later one repeats is the value of its name. */
  lemma {:induction false} ValueAt(env: seq<EnvVar>, i: nat)
    requires i < |env| && forall j :: i < j < |env| ==> env[j].name != env[i].name
    ensures G.Value(env, env[i].name) == Some(env[i].value)
  {
    var n := |env| - 1;
    if i < n {
      assert env[..n][i] == env[i];
      ValueAt(env[..n], i);
    }
  }

  // --- identity ---

  lemma IdentityValues(x: Inputs)
    requires x.spec.runtime.Some?
    ensures var own := G.Identity(x);
      && G.Value(own, RegistryVar) == Some(x.registryURL)
      && G.Value(own, NamespaceVar) == Some(x.ns)
      && G.Value(own, NameVar) == Some(x.name)
  {
    var own := G.Identity(x);
    assert own[0].name == RegistryVar && own[1].name == NamespaceVar && own[2].name == NameVar;
    ValueAt(own, 0);
    ValueAt(own, 1);
    ValueAt(own, 2);
  }

  predicate IsIdentity(name: string) {
    name == RegistryVar || name == NamespaceVar || name == NameVar
  }

  lemma HomeIsNotIdentity(mount: string, name: string)
    requires IsIdentity(name)
    ensures G.Value(HomeEnv(mount), name).None?
  {
    G.ValueUnset(HomeEnv(mount), name);
  }

  lemma GitIsNotIdentity(ws: WorkspaceSpec, gitSecret: string, name: string)
    requires name != "" && name[0] != 'G' && name != G.FileVariable
    ensures G.Value(WorkspaceEnv(ws, gitSecret), name) == G.Value(HomeEnv(V.WorkspacePath(ws)), name)
  {
    var mount := V.WorkspacePath(ws);
    var home, count, file := HomeEnv(mount), GitCountEnv(ws.repository, gitSecret), GitFileEnv(gitSecret);
    var pairs := GitPairEnv(ws.repository, mount, gitSecret);
    G.ValueOfFour(home, count, file, pairs, name);
    G.CountOnly(ws.repository, gitSecret, name);
    G.FileOnly(gitSecret, name);
    G.PairsOnly(ws.repository, mount, gitSecret, name);
  }

  lemma FragmentIsNotIdentity(x: Inputs, name: string)
    requires IsIdentity(name)
    ensures G.Value(G.Fragment(x), name).None?
  {
    if x.spec.workspace.Some? {
      GitIsNotIdentity(x.spec.workspace.value, x.gitSecret, name);
      HomeIsNotIdentity(V.WorkspacePath(x.spec.workspace.value), name);
    }
  }

  lemma PointerValue(x: Inputs, name: string)
    ensures G.Value(G.Pointer(x), name) ==
      if Backed(x.credentials) != [] && name == V.CredentialsPathEnv then Some(V.CredentialsDir) else None
  {
    G.ValueOne(EnvVar(V.CredentialsPathEnv, V.CredentialsDir), name);
  }

  /** The whole environment, part over part. */
  lemma EnvValue(x: Inputs, name: string)
    requires x.spec.runtime.Some?
    ensures G.Value(Env(x), name) ==
      G.Over(G.Value(G.Pointer(x), name),
             G.Over(G.Value(G.Fragment(x), name), G.Over(G.Value(x.spec.runtime.value.env, name), G.Value(G.Identity(x), name))))
  {
    G.OwnIsForeign(x);
    G.ValueOfFour(G.Identity(x), x.spec.runtime.value.env, G.Fragment(x), G.Pointer(x), name);
  }

  lemma IdentityValue(x: Inputs, name: string)
    requires x.spec.runtime.Some? && IsIdentity(name)
    ensures G.Value(Env(x), name) == G.Over(G.Value(x.spec.runtime.value.env, name), G.Value(G.Identity(x), name))
  {
    EnvValue(x, name);
    PointerValue(x, name);
    FragmentIsNotIdentity(x, name);
  }

  /** A built runtime is told who it is and where its Registry is: its own namespace and name, and the configured address or
      the default one; an Agent's own variables are the only thing that can say otherwise. */
  lemma BuiltRuntimeKnowsItself(c: Store, a: Key, spec: AgentSpec, registryURL: string, res: R.Result, x: Inputs)
    requires spec.runtime.Some? && RuntimeInputs(c, a, spec, registryURL, res) == Some(x)
    ensures var env, own := Materialized(x).containers[0].env, spec.runtime.value.env;
      && G.Value(env, NamespaceVar) == G.Over(G.Value(own, NamespaceVar), Some(a.ns))
      && G.Value(env, NameVar) == G.Over(G.Value(own, NameVar), Some(a.name))
      && (registryURL != "" ==> G.Value(env, RegistryVar) == G.Over(G.Value(own, RegistryVar), Some(registryURL)))
      && (registryURL == "" ==> G.Value(env, RegistryVar) == G.Over(G.Value(own, RegistryVar), Some(DefaultRegistryURL)))
  {
    IdentityValues(x);
    IdentityValue(x, NamespaceVar);
    IdentityValue(x, NameVar);
    IdentityValue(x, RegistryVar);
  }

  // --- credentials ---

  lemma FragmentNamesNoCredentials(x: Inputs)
    ensures G.Value(G.Fragment(x), V.CredentialsPathEnv).None?
  {
    if x.spec.workspace.Some? {
      var mount := V.WorkspacePath(x.spec.workspace.value);
      GitIsNotIdentity(x.spec.workspace.value, x.gitSecret, V.CredentialsPathEnv);
      G.ValueUnset(HomeEnv(mount), V.CredentialsPathEnv);
    }
  }

  /** With a Credential mounted the variable names the directory, whatever the Agent sets; without one, an accepted Agent's
      runtime does not have it. */
  lemma BuiltRuntimeFindsCredentials(c: Store, a: Key, spec: AgentSpec, registryURL: string, res: R.Result, x: Inputs)
    requires spec.runtime.Some? && RuntimeInputs(c, a, spec, registryURL, res) == Some(x)
    ensures var value := G.Value(Materialized(x).containers[0].env, V.CredentialsPathEnv);
      && ((exists m :: m in res.credentials && m.secret != "") ==> value == Some(V.CredentialsDir))
      && (V.ValidSpec(spec) && (forall m :: m in res.credentials ==> m.secret == "") ==> value.None?)
  {
    EnvValue(x, V.CredentialsPathEnv);
    PointerValue(x, V.CredentialsPathEnv);
    FragmentNamesNoCredentials(x);
    G.ValueUnset(spec.runtime.value.env, V.CredentialsPathEnv);
    G.ValueUnset(G.Identity(x), V.CredentialsPathEnv);
    var backed := Backed(x.credentials);
    if backed != [] {
      assert backed[0] in backed;
    }
  }

  // --- the working tree ---

  lemma HomeValues(mount: string)
    ensures var env, home := HomeEnv(mount), mount + "/.agent-home";
      && G.Value(env, WorkspaceVar) == Some(mount) && G.Value(env, AgentHomeVar) == Some(home) && G.Value(env, "HOME") == Some(home)
      && G.Value(env, "XDG_CONFIG_HOME") == Some(home + "/.config") && G.Value(env, "XDG_DATA_HOME") == Some(home + "/share")
      && G.Value(env, "XDG_STATE_HOME") == Some(home + "/state") && G.Value(env, "XDG_CACHE_HOME") == Some(home + "/cache")
  {
    var env := HomeEnv(mount);
    ValueAt(env, 0);
    ValueAt(env, 1);
    ValueAt(env, 2);
    ValueAt(env, 3);
    ValueAt(env, 4);
    ValueAt(env, 5);
    ValueAt(env, 6);
  }

  predicate IsHome(name: string) {
    || name == WorkspaceVar || name == AgentHomeVar || name == "HOME" || name == "XDG_CONFIG_HOME"
    || name == "XDG_DATA_HOME" || name == "XDG_STATE_HOME" || name == "XDG_CACHE_HOME"
  }

  lemma HomeWins(x: Inputs, name: string)
    requires x.spec.runtime.Some? && x.spec.workspace.Some? && IsHome(name)
    requires G.Value(HomeEnv(V.WorkspacePath(x.spec.workspace.value)), name).Some?
    ensures G.Value(Env(x), name) == G.Value(HomeEnv(V.WorkspacePath(x.spec.workspace.value)), name)
  {
    EnvValue(x, name);
    PointerValue(x, name);
    GitIsNotIdentity(x.spec.workspace.value, x.gitSecret, name);
  }

  /** A workspace runtime works in the working tree and keeps its home on it, whatever the Agent sets. */
  lemma BuiltRuntimeFindsWorkspace(x: Inputs)
    requires x.spec.runtime.Some? && x.spec.workspace.Some?
    ensures var env, mount := Materialized(x).containers[0].env, V.WorkspacePath(x.spec.workspace.value);
      && G.Value(env, WorkspaceVar) == Some(mount)
      && G.Value(env, AgentHomeVar) == Some(mount + "/.agent-home") && G.Value(env, "HOME") == Some(mount + "/.agent-home")
      && G.Value(env, "XDG_CONFIG_HOME") == Some(mount + "/.agent-home" + "/.config")
      && G.Value(env, "XDG_DATA_HOME") == Some(mount + "/.agent-home" + "/share")
      && G.Value(env, "XDG_STATE_HOME") == Some(mount + "/.agent-home" + "/state")
      && G.Value(env, "XDG_CACHE_HOME") == Some(mount + "/.agent-home" + "/cache")
  {
    HomeValues(V.WorkspacePath(x.spec.workspace.value));
    HomeWins(x, WorkspaceVar);
    HomeWins(x, AgentHomeVar);
    HomeWins(x, "HOME");
    HomeWins(x, "XDG_CONFIG_HOME");
    HomeWins(x, "XDG_DATA_HOME");
    HomeWins(x, "XDG_STATE_HOME");
    HomeWins(x, "XDG_CACHE_HOME");
  }

  /** The clone step is told what to clone, which branch of it and where to, and nothing it was not given. */
  lemma CloneIsToldWhat(ws: WorkspaceSpec, hasCredential: bool)
    ensures var env := CloneContainer(ws, hasCredential).env;
      && G.Value(env, WorkspaceVar) == Some(V.WorkspacePath(ws))
      && G.Value(env, RepositoryVar) == (if ws.repository != "" then Some(ws.repository) else None)
      && G.Value(env, BranchVar) == (if ws.branch != "" then Some(ws.branch) else None)
  {
    CloneValue(ws, hasCredential, WorkspaceVar);
    CloneValue(ws, hasCredential, RepositoryVar);
    CloneValue(ws, hasCredential, BranchVar);
  }

  lemma CloneValue(ws: WorkspaceSpec, hasCredential: bool, name: string)
    ensures G.Value(CloneContainer(ws, hasCredential).env, name) ==
      if hasCredential && name == G.FileVariable then Some(GitCredentialFile)
      else if ws.branch != "" && name == BranchVar then Some(ws.branch)
      else if name == WorkspaceVar then Some(V.WorkspacePath(ws))
      else if ws.repository != "" && name == RepositoryVar then Some(ws.repository)
      else None
  {
    var repository, tree := EnvVar(RepositoryVar, ws.repository), EnvVar(WorkspaceVar, V.WorkspacePath(ws));
    var branch, file := EnvVar(BranchVar, ws.branch), EnvVar(G.FileVariable, GitCredentialFile);
    G.ValueOfFour(
      if ws.repository != "" then [repository] else [], [tree], if ws.branch != "" then [branch] else [],
      if hasCredential then [file] else [], name);
    G.ValueOne(repository, name);
    G.ValueOne(tree, name);
    G.ValueOne(branch, name);
    G.ValueOne(file, name);
  }

  // --- the rest of the container and of the Deployment ---

  /** What is taken from the runtime spec is taken as it is. */
  lemma BuiltFromRuntimeSpec(x: Inputs)
    requires x.spec.runtime.Some?
    ensures var m, rt := Materialized(x), x.spec.runtime.value;
      && |m.containers| == 1 && m.containers[0].name == "runtime" && m.containers[0].image == rt.image
      && m.containers[0].port == rt.port && m.containers[0].resources == rt.resources
      && m.serviceAccountName == rt.serviceAccountName
      && (rt.runtimeClassName == "" ==> m.runtimeClassName.None?)
      && (rt.runtimeClassName != "" ==> m.runtimeClassName == Some(rt.runtimeClassName))
  {
  }

  /** An explicit probe wins; a workspace runtime that listens gets the default one; nothing else is probed. */
  lemma BuiltProbe(x: Inputs)
    requires x.spec.runtime.Some?
    ensures var probe, rt := Materialized(x).containers[0].probe, x.spec.runtime.value;
      && (rt.readinessProbe.Some? ==> probe == GivenProbe(rt.readinessProbe.value))
      && (rt.readinessProbe.None? && x.spec.workspace.Some? && rt.port != 0 ==> probe == ConfigProbe(rt.port))
      && (rt.readinessProbe.None? && (x.spec.workspace.None? || rt.port == 0) ==> probe == NoProbe)
  {
  }

  /** A container is sandboxed exactly when it is given something to reach. */
  lemma SandboxedExactly(x: Inputs)
    requires x.spec.runtime.Some?
    ensures var main := Materialized(x).containers[0]; main.sandboxed <==> main.mounts != []
  {
    var k, b := Known(x.spec.runtime.value.volumes), Backed(x.credentials);
    assert |Each(k, UserMount)| == |k| && |Each(b, CredentialMount)| == |b|;
  }

  ghost predicate MountsTree(m: Managed, agent: string) {
    exists v :: v in m.volumes && v.name == "workspace" && v.source == Claim(agent + "-workspace", false)
  }

  /** The working tree has one writer: a pod that mounts it is alone, is replaced rather than rolled, and is prepared by one
      clone step; any other runs as many replicas as it asked for. */
  lemma OneWriter(x: Inputs)
    requires V.ValidSpec(x.spec) && x.spec.runtime.Some?
    ensures var m := Materialized(x);
      && (MountsTree(m, x.name) ==>
            m.replicas == 1 && m.strategy == Recreate && |m.initContainers| == 1 && m.initContainers[0].name == "clone" &&
            m.fsGroup == Some(WorkspaceFSGroup))
      && (!MountsTree(m, x.name) ==>
            m.replicas == x.spec.runtime.value.replicas && m.strategy == DefaultStrategy && m.initContainers == [] && m.fsGroup.None?)
      && (MountsTree(m, x.name) <==> x.spec.workspace.Some?)
  {
    var m := Materialized(x);
    if x.spec.workspace.Some? {
      assert m.volumes[0] in m.volumes && m.volumes[0].name == "workspace";
    } else {
      NoOtherTree(x);
    }
  }

  lemma NoOtherTree(x: Inputs)
    requires V.ValidSpec(x.spec) && x.spec.runtime.Some? && x.spec.workspace.None?
    ensures forall v :: v in Volumes(x) ==> v.name != "workspace"
  {
    var declared, b := x.spec.runtime.value.volumes, Backed(x.credentials);
    var k := Known(declared);
    assert V.ReservedVolumeNames[0] == "workspace";
    forall i | 0 <= i < |k| ensures UserVolume(k[i]).name != "workspace" {
      assert k[i] in k;
      assert V.ValidVolume(x.spec, k[i]);
    }
    assert forall i :: 0 <= i < |b| ==> CredentialVolume(b[i]).name[0] == V.CredentialPrefix[0];
  }

  /** A Deployment selects its own pods, and no pod of another Agent of the namespace. */
  lemma SelectorsApart(x: Inputs, y: Inputs)
    requires x.spec.runtime.Some? && y.spec.runtime.Some?
    ensures var m, n := Materialized(x), Materialized(y);
      && m.selector == m.templateLabels == m.labels
      && (m.selector == n.templateLabels <==> x.name == y.name)
  {
    var key := "app.kubernetes.io/instance";
    assert Materialized(x).selector[key] == x.name && Materialized(y).templateLabels[key] == y.name;
  }

  // --- what an accepted workspace promises ---

  ghost predicate Absolute(mounts: seq<Mount>) {
    forall m :: m in mounts ==> V.HasPrefix(m.path, "/")
  }

  lemma UserPathsAreAbsolute(x: Inputs)
    requires V.ValidSpec(x.spec) && x.spec.runtime.Some?
    ensures Absolute(Each(Known(x.spec.runtime.value.volumes), UserMount))
  {
    var k := Known(x.spec.runtime.value.volumes);
    forall i | 0 <= i < |k| ensures V.HasPrefix(UserMount(k[i]).path, "/") {
      assert k[i] in k;
      assert V.ValidVolume(x.spec, k[i]);
    }
  }

  lemma CredentialPathsAreAbsolute(creds: seq<R.MountedCredential>)
    ensures Absolute(Each(Backed(creds), CredentialMount))
  {
    var b := Backed(creds);
    forall i | 0 <= i < |b| ensures V.HasPrefix(CredentialMount(b[i]).path, "/") {
      assert CredentialMount(b[i]).path[0] == V.CredentialsDir[0];
    }
  }

  lemma TreePathsAreAbsolute(ws: WorkspaceSpec, gitSecret: string, modelSecret: string, hasCredential: bool)
    requires ws.mountPath != "" ==> V.HasPrefix(ws.mountPath, "/")
    ensures Absolute(WorkspaceMounts(ws, gitSecret, modelSecret)) && Absolute(CloneMounts(ws, hasCredential))
  {
    assert V.TmpMountPath[0] == '/' && V.GitMountPath[0] == '/' && V.ModelMountPath[0] == '/' && V.DefaultWorkspacePath[0] == '/';
  }

  lemma AbsoluteParts(a: seq<Mount>, b: seq<Mount>, c: seq<Mount>)
    requires Absolute(a) && Absolute(b) && Absolute(c)
    ensures Absolute(a + b + c)
  {
  }

  /** Every mount of an accepted Agent's pod is at an absolute path. */
  lemma AcceptedPathsAreAbsolute(x: Inputs)
    requires V.ValidSpec(x.spec) && x.spec.runtime.Some?
    ensures Absolute(Materialized(x).containers[0].mounts)
    ensures Materialized(x).initContainers != [] ==> Absolute(Materialized(x).initContainers[0].mounts)
  {
    var ws := x.spec.workspace;
    if ws.Some? {
      TreePathsAreAbsolute(ws.value, x.gitSecret, x.modelSecret, x.gitSecret != "");
    }
    UserPathsAreAbsolute(x);
    CredentialPathsAreAbsolute(x.credentials);
    AbsoluteParts(
      if ws.Some? then WorkspaceMounts(ws.value, x.gitSecret, x.modelSecret) else [],
      Each(Known(x.spec.runtime.value.volumes), UserMount), Each(Backed(x.credentials), CredentialMount));
  }

  /** In an accepted Agent nothing that describes a clone is inert: a branch comes with its repository, and a workspace
      credential is one the runtime waits for. */
  lemma NothingIsInert(spec: AgentSpec, hasCredential: bool)
    requires V.ValidSpec(spec) && spec.workspace.Some?
    ensures var ws := spec.workspace.value; var env := CloneContainer(ws, hasCredential).env;
      && (G.Value(env, BranchVar).Some? ==> G.Value(env, RepositoryVar).Some?)
      && (ws.credentialRef.Some? <==> WantsGitSecret(spec))
  {
    CloneIsToldWhat(spec.workspace.value, hasCredential);
  }

  /** What keeps an Agent with this workspace from being accepted, whatever else it declares. */
  lemma WorkspaceIsRejected(spec: AgentSpec, ws: WorkspaceSpec)
    requires spec.workspace == Some(ws)
    ensures spec.runtime.None? ==> !V.ValidSpec(spec)
    ensures ws.repository == "" && (ws.branch != "" || ws.credentialRef.Some?) ==> !V.ValidSpec(spec)
    ensures ws.mountPath != "" && ws.mountPath[0] != '/' ==> !V.ValidSpec(spec)
    ensures ws.size.text != "" && !ws.size.parses ==> !V.ValidSpec(spec)
  {
  }

  /** And a plain one is accepted with any runtime that is accepted without it and keeps off its path. */
  lemma WorkspaceIsAccepted(spec: AgentSpec, ws: WorkspaceSpec)
    requires V.ValidSpec(spec) && spec.workspace.None? && spec.runtime.Some?
    requires ws.repository != "" && (ws.mountPath == "" || ws.mountPath[0] == '/') && (ws.size.text == "" || ws.size.parses)
    requires forall v :: v in spec.runtime.value.volumes ==> V.Clean(v.mountPath) != V.WorkspacePath(ws)
    ensures V.ValidSpec(spec.(workspace := Some(ws)))
  {
    var now, volumes := spec.(workspace := Some(ws)), spec.runtime.value.volumes;
    forall i | 0 <= i < |volumes| ensures V.ValidVolume(now, volumes[i]) {
      assert V.ValidVolume(spec, volumes[i]) && volumes[i] in volumes;
    }
  }
}
